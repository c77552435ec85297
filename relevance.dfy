/** The relevance filter (`src/filters/ai-related.ts`): a chain of site rules followed by a
    keyword test on the lowercased "title source site_name url" text. The keyword lists and
    the English-signal pattern come from the configuration, which is not part of this model,
    so they are parameters. */
module Relevance {
  import opened Strings
  import opened Records
  import Text

  /** The configured keyword lists (`CONFIG.filter`) and the English-signal regular
      expression as a predicate. */
  datatype FilterConfig = FilterConfig(
    tophubBlockKeywords: seq<string>, tophubAllowKeywords: seq<string>, aiKeywords: seq<string>,
    techKeywords: seq<string>, commerceNoiseKeywords: seq<string>, noiseKeywords: seq<string>,
    enSignal: string -> bool)

  /** `keywords.some((k) => h.includes(k))` on the lowercased haystack. */
  function ContainsAnyKeyword(haystack: string, keywords: seq<string>): (r: bool)
    ensures r <==> exists k | k in keywords :: Contains(Lower(haystack), k)
  {
    AnyIn(Lower(haystack), keywords)
  }

  function AnyIn(h: string, keywords: seq<string>): (r: bool)
    ensures r <==> exists k | k in keywords :: Contains(h, k)
  {
    if keywords == [] then false
    else Contains(h, keywords[0]) || AnyIn(h, keywords[1..])
  }

  /** The haystack `${title} ${source} ${siteName} ${url}`, lowercased. */
  function Haystack(r: Record): string {
    Lower(r.title + " " + r.source + " " + r.siteName + " " + r.url)
  }

  /** An AI keyword or the English signal. */
  predicate HasAi(r: Record, cfg: FilterConfig) {
    ContainsAnyKeyword(Haystack(r), cfg.aiKeywords) || cfg.enSignal(Haystack(r))
  }

  predicate HasTech(r: Record, cfg: FilterConfig) {
    ContainsAnyKeyword(Haystack(r), cfg.techKeywords)
  }

  /** The checks a tophub record must pass before the general rule. */
  predicate TophubPasses(r: Record, cfg: FilterConfig) {
    !Text.HasMojibakeNoise(r.source) && !Text.HasMojibakeNoise(r.title)
    && !ContainsAnyKeyword(Lower(r.source), cfg.tophubBlockKeywords)
    && ContainsAnyKeyword(Lower(r.source), cfg.tophubAllowKeywords)
  }

  /** Sites whose every record is relevant. */
  predicate TrustedSite(siteId: string) {
    siteId == "aibase" || siteId == "aihot" || siteId == "aihubtoday"
  }

  /** `isAiRelated(record)` */
  function IsAiRelated(r: Record, cfg: FilterConfig): (b: bool)
    ensures TrustedSite(Lower(r.siteId)) ==> b
    ensures Lower(r.siteId) == "tophub" && !TophubPasses(r, cfg) ==> !b
    ensures b && Lower(r.siteId) != "zeli" && !TrustedSite(Lower(r.siteId)) ==> HasAi(r, cfg) || HasTech(r, cfg)
    ensures Lower(r.siteId) != "zeli" && Lower(r.siteId) != "tophub" && HasAi(r, cfg) ==> b
  {
    var siteId := Lower(r.siteId);
    if siteId == "zeli" then
      Contains(Lower(r.source), "24h") || Contains(r.source, "24h最热")
    else if siteId == "tophub" && !TophubPasses(r, cfg) then false
    else if TrustedSite(siteId) then true
    else if !HasAi(r, cfg) && !HasTech(r, cfg) then false
    else if ContainsAnyKeyword(Haystack(r), cfg.commerceNoiseKeywords) && !HasAi(r, cfg) then false
    else if ContainsAnyKeyword(Haystack(r), cfg.noiseKeywords) && !HasAi(r, cfg) then false
    else true
  }

  /** A zeli record is relevant exactly when its source mentions "24h" in any case: the
      second test of the source ("24h最热") is subsumed by the first. */
  lemma ZeliRule(r: Record, cfg: FilterConfig)
    requires Lower(r.siteId) == "zeli"
    ensures IsAiRelated(r, cfg) <==> Contains(Lower(r.source), "24h")
  {
    if Contains(r.source, "24h最热") {
      var i :| 0 <= i <= |r.source| - 5 && OccursAt(r.source, "24h最热", i);
      assert r.source[i..i + 3] == "24h" by {
        assert r.source[i..i + 5][..3] == "24h";
      }
      assert Lower(r.source)[i..i + 3] == "24h" by {
        forall k | 0 <= k < 3 ensures Lower(r.source)[i..i + 3][k] == "24h"[k] {
          assert r.source[i + k] == "24h"[k];
        }
      }
      assert OccursAt(Lower(r.source), "24h", i);
    }
  }

  /** A tophub record failing any of its checks is rejected, whatever its keywords. */
  lemma TophubRejected(r: Record, cfg: FilterConfig)
    requires Lower(r.siteId) == "tophub"
    requires Text.HasMojibakeNoise(r.source) || Text.HasMojibakeNoise(r.title)
      || (exists k | k in cfg.tophubBlockKeywords :: Contains(Lower(Lower(r.source)), k))
      || !(exists k | k in cfg.tophubAllowKeywords :: Contains(Lower(Lower(r.source)), k))
    ensures !IsAiRelated(r, cfg)
  {
  }

  /** A tophub record that passes its checks is judged by the general rule, exactly as a
      record of an unlisted site. */
  lemma TophubFallsThrough(r: Record, cfg: FilterConfig)
    requires Lower(r.siteId) == "tophub" && TophubPasses(r, cfg)
    ensures IsAiRelated(r, cfg) <==> IsAiRelated(r.(siteId := "other"), cfg)
  {
    assert Lower("other") == "other";
  }

  /** aibase, aihot and aihubtoday records are always relevant. */
  lemma TrustedAlwaysRelevant(r: Record, cfg: FilterConfig)
    requires TrustedSite(Lower(r.siteId))
    ensures IsAiRelated(r, cfg)
  {
  }

  /** The general rule: a record of any other site is relevant exactly when it has an AI
      signal, or a tech keyword and neither kind of noise keyword. */
  lemma GeneralRule(r: Record, cfg: FilterConfig)
    requires Lower(r.siteId) != "zeli" && Lower(r.siteId) != "tophub" && !TrustedSite(Lower(r.siteId))
    ensures IsAiRelated(r, cfg) <==>
      (HasAi(r, cfg)
       || (HasTech(r, cfg)
           && !(exists k | k in cfg.commerceNoiseKeywords :: Contains(Lower(Haystack(r)), k))
           && !(exists k | k in cfg.noiseKeywords :: Contains(Lower(Haystack(r)), k))))
  {
  }

  /** Noise keywords never reject a record with an AI signal outside the zeli rule and the
      tophub checks. */
  lemma AiSignalWins(r: Record, cfg: FilterConfig)
    requires Lower(r.siteId) != "zeli"
    requires Lower(r.siteId) == "tophub" ==> TophubPasses(r, cfg)
    requires exists k | k in cfg.aiKeywords :: Contains(Lower(Haystack(r)), k)
    ensures IsAiRelated(r, cfg)
  {
  }

  /** The site id is compared ignoring case. */
  lemma SiteIdCaseInsensitive(r: Record, cfg: FilterConfig, siteId: string)
    requires Lower(siteId) == Lower(r.siteId)
    ensures IsAiRelated(r.(siteId := siteId), cfg) == IsAiRelated(r, cfg)
  {
  }
}

/** URL canonicalisation (`src/utils/url.ts`). The URL parser itself (WHATWG URL Standard,
    section 4.4) is a parameter; a parsed URL is the abstract record below. */
module Urls {
  import opened Wrappers
  import opened Strings
  import Sorting

  /** One name/value pair of `url.searchParams`, as produced by the
      application/x-www-form-urlencoded parser (URL Standard, section 5.1). */
  datatype Param = Param(name: string, value: string)

  /** A parsed URL: `head` is the serialization of scheme, credentials, host and port
      (everything before the path), `hostname` the parsed host, `params` the decoded query
      and `fragment` the part after "#". */
  datatype Url = Url(head: string, hostname: string, pathname: string, params: seq<Param>, fragment: Option<string>)

  /** `new URL(s)`: `None` when the constructor throws. */
  type Parser = string -> Option<Url>

  /** The fixed tracking parameter names (url.ts, lines 1-18). */
  const TrackingNames: set<string> := {
    "utm_source", "utm_medium", "utm_campaign", "utm_term", "utm_content", "utm_id",
    "ref", "spm", "fbclid", "gclid", "igshid", "mkt_tok", "mc_cid", "mc_eid", "_hsenc", "_hsmi"
  }

  /** A parameter is dropped when its lower-cased name starts with "utm_" or is a fixed name. */
  predicate IsTrackingName(name: string) {
    var lower := Lower(name);
    StartsWith(lower, "utm_") || lower in TrackingNames
  }

  predicate Kept(p: Param) {
    !IsTrackingName(p.name)
  }

  /** The parameters that survive, in their original order. */
  function KeptParams(ps: seq<Param>): (r: seq<Param>)
    ensures forall i | 0 <= i < |r| :: r[i] in ps && Kept(r[i])
  {
    Sorting.Filter(ps, Kept)
  }

  /** Every parameter that is not a tracking one survives. */
  lemma KeptParamsComplete(ps: seq<Param>)
    ensures forall i | 0 <= i < |ps| && Kept(ps[i]) :: ps[i] in KeptParams(ps)
  {
    Sorting.FilterComplete(ps, Kept);
  }

  /** The `forEach` that appends every surviving parameter to a fresh `URLSearchParams`. */
  method AppendKeptParams(ps: seq<Param>) returns (kept: seq<Param>)
    ensures kept == KeptParams(ps)
  {
    kept := [];
    var i := 0;
    while i < |ps|
      invariant 0 <= i <= |ps|
      invariant kept == KeptParams(ps[..i])
    {
      assert ps[..i + 1][..i] == ps[..i];
      var p := ps[i];
      var lowerKey := Lower(p.name);
      if StartsWith(lowerKey, "utm_") {
      } else if lowerKey in TrackingNames {
      } else {
        kept := kept + [p];
      }
      i := i + 1;
    }
    assert ps[..i] == ps;
  }

  /** Filtering twice is filtering once. */
  lemma {:induction false} KeptParamsIdempotent(ps: seq<Param>)
    ensures KeptParams(KeptParams(ps)) == KeptParams(ps)
    decreases |ps|
  {
    if ps != [] {
      var init := ps[..|ps| - 1];
      KeptParamsIdempotent(init);
      Sorting.FilterAppend(Sorting.Filter(init, Kept), [ps[|ps| - 1]], Kept);
      if Kept(ps[|ps| - 1]) {
        assert Sorting.Filter([ps[|ps| - 1]], Kept) == [ps[|ps| - 1]] by {
          assert [ps[|ps| - 1]][..0] == [];
        }
      }
    }
  }

  /** Inserting a tracking parameter anywhere changes nothing. */
  lemma TrackingParamIgnored(a: seq<Param>, t: Param, b: seq<Param>)
    requires IsTrackingName(t.name)
    ensures KeptParams(a + [t] + b) == KeptParams(a + b)
  {
    Sorting.FilterAppend(a + [t], b, Kept);
    Sorting.FilterAppend(a, [t], Kept);
    Sorting.FilterAppend(a, b, Kept);
    assert Sorting.Filter([t], Kept) == [] by { assert [t][..0] == []; }
  }

  /** The UTF-8 encoding of one code point. */
  function Utf8(c: char): (bytes: seq<nat>)
    ensures 1 <= |bytes| <= 4
    ensures forall i | 0 <= i < |bytes| :: bytes[i] < 256
  {
    var n := c as int;
    if n < 0x80 then [n]
    else if n < 0x800 then [0xC0 + n / 64, 0x80 + n % 64]
    else if n < 0x10000 then [0xE0 + n / 4096, 0x80 + (n / 64) % 64, 0x80 + n % 64]
    else [0xF0 + n / 262144, 0x80 + (n / 4096) % 64, 0x80 + (n / 64) % 64, 0x80 + n % 64]
  }

  function HexDigit(d: nat): char
    requires d < 16
  {
    if d < 10 then ('0' as int + d) as char else ('A' as int + d - 10) as char
  }

  function PercentBytes(bytes: seq<nat>): string
    requires forall i | 0 <= i < |bytes| :: bytes[i] < 256
  {
    if bytes == [] then ""
    else ['%', HexDigit(bytes[0] / 16), HexDigit(bytes[0] % 16)] + PercentBytes(bytes[1..])
  }

  /** Characters the form serializer leaves as they are. */
  predicate FormSafe(c: char) {
    ('a' <= c <= 'z') || ('A' <= c <= 'Z') || ('0' <= c <= '9') || c == '*' || c == '-' || c == '.' || c == '_'
  }

  /** The application/x-www-form-urlencoded byte serializer (URL Standard, section 5.2). */
  function FormEncode(s: string): string {
    if s == [] then ""
    else
      (if s[0] == ' ' then "+" else if FormSafe(s[0]) then [s[0]] else PercentBytes(Utf8(s[0])))
      + FormEncode(s[1..])
  }

  function FormPairs(ps: seq<Param>): seq<string> {
    seq(|ps|, i requires 0 <= i < |ps| => FormEncode(ps[i].name) + "=" + FormEncode(ps[i].value))
  }

  /** `params.toString()` */
  function FormSerialize(ps: seq<Param>): string {
    Join(FormPairs(ps), "&")
  }

  /** `url.toString()`, the href serialization. */
  function Href(u: Url): string {
    u.head + u.pathname
    + (if u.params == [] then "" else "?" + FormSerialize(u.params))
    + (match u.fragment case None => "" case Some(f) => "#" + f)
  }

  /** The URL after `url.search = params.toString(); url.hash = ''`. */
  function Cleaned(u: Url): Url {
    u.(params := KeptParams(u.params), fragment := None)
  }

  /** The normalisation of a parsed URL: its cleaned href, less one trailing "/" when the
      path is not the root. */
  function NormalizeRecord(u: Url): (r: string)
    ensures var h := Href(Cleaned(u));
      (u.pathname == "/" || !EndsWith(h, "/")) ==> r == h
    ensures var h := Href(Cleaned(u));
      (u.pathname != "/" && EndsWith(h, "/")) ==> r + "/" == h
  {
    var normalized := Href(Cleaned(u));
    if EndsWith(normalized, "/") && u.pathname != "/" then normalized[..|normalized| - 1] else normalized
  }

  /** `normalizeUrl(rawUrl)`: "" for blank input, the trimmed input when it does not parse. */
  function NormalizeUrl(raw: string, parse: Parser): (r: string)
    ensures Trim(raw) == [] ==> r == []
    ensures Trim(raw) != [] && parse(Trim(raw)).None? ==> r == Trim(raw)
    ensures Trim(raw) != [] && parse(Trim(raw)).Some? ==> r == NormalizeRecord(parse(Trim(raw)).value)
  {
    var trimmed := Trim(raw);
    if trimmed == [] then trimmed
    else match parse(trimmed)
      case None => trimmed
      case Some(url) => NormalizeRecord(url)
  }

  /** Two URLs that agree on everything but tracking parameters and the fragment have the
      same normal form. */
  lemma NormalizeRecordIgnoresTrackingAndFragment(u: Url, v: Url)
    requires u.head == v.head && u.pathname == v.pathname
    requires KeptParams(u.params) == KeptParams(v.params)
    ensures NormalizeRecord(u) == NormalizeRecord(v)
  {
    assert Href(Cleaned(u)) == Href(Cleaned(v));
  }

  /** The same, stated on the raw strings. */
  lemma NormalizeUrlIgnoresTrackingAndFragment(a: string, b: string, parse: Parser)
    requires Trim(a) != [] && Trim(b) != []
    requires parse(Trim(a)).Some? && parse(Trim(b)).Some?
    requires var u, v := parse(Trim(a)).value, parse(Trim(b)).value;
      u.head == v.head && u.pathname == v.pathname && KeptParams(u.params) == KeptParams(v.params)
    ensures NormalizeUrl(a, parse) == NormalizeUrl(b, parse)
  {
    NormalizeRecordIgnoresTrackingAndFragment(parse(Trim(a)).value, parse(Trim(b)).value);
  }

  /** With no surviving parameter the normal form is head and path, with one trailing "/"
      removed unless the path is "/". */
  lemma NormalizeRecordWithoutQuery(u: Url)
    requires KeptParams(u.params) == []
    ensures u.pathname == "/" ==> NormalizeRecord(u) == u.head + "/"
    ensures u.pathname != "/" && EndsWith(u.pathname, "/") ==>
      NormalizeRecord(u) + "/" == u.head + u.pathname
    ensures !EndsWith(u.pathname, "/") && u.pathname != [] ==> NormalizeRecord(u) == u.head + u.pathname
  {
    var h := Href(Cleaned(u));
    assert h == u.head + u.pathname;
    if u.pathname != [] {
      assert h[|h| - 1] == u.pathname[|u.pathname| - 1];
      assert EndsWith(h, "/") <==> EndsWith(u.pathname, "/");
    }
  }

  /** `getHost(url)`: the lower-cased hostname, or "" when parsing fails. */
  function GetHost(url: string, parse: Parser): (r: string)
    ensures parse(url).None? ==> r == []
    ensures parse(url).Some? ==> r == Lower(parse(url).value.hostname)
    ensures Lower(r) == r
  {
    match parse(url)
    case None => ""
    case Some(u) => LowerIdempotent(u.hostname); Lower(u.hostname)
  }
}

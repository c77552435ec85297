/** Item identity (`src/utils/hash.ts`): a "||"-joined key of the canonicalised fields,
    digested with SHA-1 (FIPS 180-4, section 6.1), which the model takes as a parameter. */
module Hash {
  import opened Strings
  import Urls

  /** The lower-case hexadecimal SHA-1 digest of the UTF-8 bytes of a string. */
  type Digest = string -> string

  /** One key field: trimmed, then lower-cased. */
  function Canon(s: string): string {
    Lower(Trim(s))
  }

  /** The key `makeItemId` digests. */
  function ItemKey(siteId: string, source: string, title: string, url: string, parse: Urls.Parser): string {
    Join([Canon(siteId), Canon(source), Canon(title), Urls.NormalizeUrl(url, parse)], "||")
  }

  /** `makeItemId`: the digest of the key, so the id depends on the key alone. */
  function MakeItemId(siteId: string, source: string, title: string, url: string, parse: Urls.Parser, sha1: Digest): string {
    sha1(ItemKey(siteId, source, title, url, parse))
  }

  /** `hashString`: the same digest applied to the string itself. */
  function HashString(s: string, sha1: Digest): string {
    sha1(s)
  }

  /** A digest without collisions, the property the ids rely on. */
  ghost predicate CollisionFree(sha1: Digest) {
    forall s, t :: sha1(s) == sha1(t) ==> s == t
  }

  /** Surrounding white space and letter case never change a key field. */
  lemma CanonIgnoresCaseAndPadding(ws1: string, s: string, ws2: string)
    requires AllSpace(ws1) && AllSpace(ws2)
    ensures Canon(ws1 + Upper(s) + ws2) == Canon(s)
  {
    TrimIgnoresPadding(ws1, Upper(s), ws2);
    LowerTrimUpper(s);
  }

  /** Variants of a candidate that differ only in case and padding of site, source and
      title, and in tracking parameters or fragment of the URL, get the same id. */
  lemma MakeItemIdStable(siteId: string, source: string, title: string, url: string, url2: string,
                         ws1: string, ws2: string, parse: Urls.Parser, sha1: Digest)
    requires AllSpace(ws1) && AllSpace(ws2)
    requires Trim(url) != [] && Trim(url2) != []
    requires parse(Trim(url)).Some? && parse(Trim(url2)).Some?
    requires var u, v := parse(Trim(url)).value, parse(Trim(url2)).value;
      u.head == v.head && u.pathname == v.pathname && Urls.KeptParams(u.params) == Urls.KeptParams(v.params)
    ensures MakeItemId(ws1 + Upper(siteId) + ws2, ws1 + Upper(source) + ws2, ws1 + Upper(title) + ws2, url2, parse, sha1)
         == MakeItemId(siteId, source, title, url, parse, sha1)
  {
    CanonIgnoresCaseAndPadding(ws1, siteId, ws2);
    CanonIgnoresCaseAndPadding(ws1, source, ws2);
    CanonIgnoresCaseAndPadding(ws1, title, ws2);
    Urls.NormalizeUrlIgnoresTrackingAndFragment(url, url2, parse);
  }

  lemma Join4(w: string, x: string, y: string, z: string, sep: string)
    ensures Join([w, x, y, z], sep) == w + sep + (x + sep + (y + sep + z))
  {
    assert [w, x, y, z][1..] == [x, y, z];
    assert [x, y, z][1..] == [y, z];
    assert [y, z][1..] == [z];
    assert Join([z], sep) == z;
    assert Join([y, z], sep) == y + sep + z;
    assert Join([x, y, z], sep) == x + sep + (y + sep + z);
  }

  lemma JoinCancel(w: string, a: string, b: string, y: string, z: string, sep: string)
    ensures Join([w, a, y, z], sep) == Join([w, b, y, z], sep) <==> a == b
  {
    Join4(w, a, y, z, sep);
    Join4(w, b, y, z, sep);
    var p := w + sep;
    var q := sep + (y + sep + z);
    assert Join([w, a, y, z], sep) == p + a + q;
    assert Join([w, b, y, z], sep) == p + b + q;
    if Join([w, a, y, z], sep) == Join([w, b, y, z], sep) {
      CancelAround(p, a, b, q);
    }
  }

  lemma {:induction false} CancelAround(p: string, a: string, b: string, q: string)
    requires p + a + q == p + b + q
    ensures a == b
  {
    var k := p + a + q;
    assert |a| == |b|;
    assert a == k[|p|..|p| + |a|];
    assert b == k[|p|..|p| + |b|];
  }

  /** With the same site, title and URL, two candidates share a key exactly when their
      canonical sources agree; this needs no assumption about "||" inside the fields,
      because the common prefix and suffix cancel. */
  lemma ItemKeySeparatesSources(siteId: string, a: string, b: string, title: string, url: string, parse: Urls.Parser)
    ensures ItemKey(siteId, a, title, url, parse) == ItemKey(siteId, b, title, url, parse) <==> Canon(a) == Canon(b)
  {
    JoinCancel(Canon(siteId), Canon(a), Canon(b), Canon(title), Urls.NormalizeUrl(url, parse), "||");
  }

  /** With a collision-free digest and the same site, title and URL, two candidates get the
      same id exactly when their canonical sources agree: the site's items are told apart
      by source. */
  lemma MakeItemIdSeparatesSources(siteId: string, a: string, b: string, title: string, url: string,
                                   parse: Urls.Parser, sha1: Digest)
    requires CollisionFree(sha1)
    ensures MakeItemId(siteId, a, title, url, parse, sha1) == MakeItemId(siteId, b, title, url, parse, sha1)
        <==> Canon(a) == Canon(b)
  {
    ItemKeySeparatesSources(siteId, a, b, title, url, parse);
  }
}

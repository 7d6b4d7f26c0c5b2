/**
  URL handling of the favicon resolver: `normalizeUrl`, `getBaseUrl` and `resolveUrl`
  (api/favicon.js and its line-for-line copy in worker.js).
  The WHATWG URL parser behind `new URL(...)` is not modelled: it is a parameter that
  either fails or yields the parsed protocol and hostname.
*/
module Urls {
  import opened Wrappers
  import opened Text

  const Http: string := "http://"
  const Https: string := "https://"

  /** The two schemes the resolver recognises, tested case-sensitively as `startsWith` does. */
  predicate HasHttpScheme(url: string)
  {
    StartsWith(url, Http) || StartsWith(url, Https)
  }

  /** `normalizeUrl`: makes sure the URL carries a scheme, defaulting to https. */
  function NormalizeUrl(url: string): (r: string)
    ensures HasHttpScheme(r)
    ensures r == url <==> HasHttpScheme(url)
    ensures |r| >= |url| && r[|r| - |url|..] == url
    ensures r != url ==> r[..|r| - |url|] == Https
  {
    if !StartsWith(url, Http) && !StartsWith(url, Https) then Https + url else url
  }

  lemma {:induction false} NormalizeUrlIdempotent(url: string)
    ensures NormalizeUrl(NormalizeUrl(url)) == NormalizeUrl(url)
  {
    var once := NormalizeUrl(url);
    assert HasHttpScheme(once);
  }

  /** What `new URL(...)` yields that the resolver reads: `protocol` (with its colon) and `hostname`. */
  datatype ParsedUrl = ParsedUrl(protocol: string, hostname: string)

  /**
    What the WHATWG parser guarantees for a URL that starts with `http://` or `https://`:
    the protocol is that scheme followed by a colon, and the host of such a special URL is not empty.
  */
  predicate SchemePreserving(normalized: string, parsed: ParsedUrl)
  {
    && (StartsWith(normalized, Http) ==> parsed.protocol == "http:")
    && (StartsWith(normalized, Https) ==> parsed.protocol == "https:")
    && parsed.hostname != ""
  }

  /** `getBaseUrl`: protocol + "//" + hostname of the normalised input, or null when parsing throws. */
  function GetBaseUrl(url: string, parse: string -> Option<ParsedUrl>): (r: Option<string>)
    ensures r.None? <==> parse(NormalizeUrl(url)).None?
    ensures r.Some? ==> var p := parse(NormalizeUrl(url)).value;
      && |r.value| == |p.protocol| + 2 + |p.hostname|
      && StartsWith(r.value, p.protocol + "//")
      && r.value[|p.protocol| + 2..] == p.hostname
  {
    match parse(NormalizeUrl(url))
    case None => None
    case Some(p) =>
      var base := p.protocol + "//" + p.hostname;
      assert base == (p.protocol + "//") + p.hostname;
      StartsWithConcat(p.protocol + "//", p.hostname);
      assert base[|p.protocol| + 2..] == p.hostname;
      Some(base)
  }

  /** With a parser that keeps the scheme, every base URL is `http://host` or `https://host` with a host. */
  lemma BaseUrlHasScheme(url: string, parse: string -> Option<ParsedUrl>)
    requires parse(NormalizeUrl(url)).Some?
    requires SchemePreserving(NormalizeUrl(url), parse(NormalizeUrl(url)).value)
    ensures GetBaseUrl(url, parse).Some?
    ensures HasHttpScheme(GetBaseUrl(url, parse).value)
    ensures |GetBaseUrl(url, parse).value| > |Http|
  {
    var p := parse(NormalizeUrl(url)).value;
    var base := GetBaseUrl(url, parse).value;
    assert base == p.protocol + "//" + p.hostname;
    if StartsWith(NormalizeUrl(url), Https) {
      assert base == Https + p.hostname;
      StartsWithConcat(Https, p.hostname);
    } else {
      assert base == Http + p.hostname;
      StartsWithConcat(Http, p.hostname);
    }
  }

  /** The four kinds of href the resolver tells apart, tested in this order. */
  predicate IsAbsolute(href: string) { HasHttpScheme(href) }
  predicate IsProtocolRelative(href: string) { StartsWith(href, "//") }
  predicate IsRootRelative(href: string) { StartsWith(href, "/") }

  /**
    `resolveUrl`: an absolute href is kept, a protocol-relative one gets `https:`, a root-relative
    one gets the base, anything else is taken relative to the base's root.
    The result always ends with the href; what is put in front depends only on the case.
  */
  function ResolveUrl(href: string, base: string): (r: string)
    ensures |r| >= |href| && r[|r| - |href|..] == href
    ensures IsAbsolute(href) ==> r == href
    ensures !IsAbsolute(href) && IsProtocolRelative(href) ==> r[..|r| - |href|] == "https:"
    ensures !IsAbsolute(href) && !IsProtocolRelative(href) && IsRootRelative(href)
      ==> r[..|r| - |href|] == base
    ensures !IsAbsolute(href) && !IsRootRelative(href) ==> r[..|r| - |href|] == base + "/"
  {
    if StartsWith(href, Http) || StartsWith(href, Https) then href
    else if StartsWith(href, "//") then "https:" + href
    else if StartsWith(href, "/") then base + href
    else base + "/" + href
  }

  /** A base with an http(s) scheme gives resolved URLs with an http(s) scheme, whatever the href. */
  lemma {:induction false} ResolveUrlKeepsScheme(href: string, base: string)
    requires HasHttpScheme(base)
    ensures HasHttpScheme(ResolveUrl(href, base))
  {
    var r := ResolveUrl(href, base);
    if IsAbsolute(href) {
    } else if IsProtocolRelative(href) {
      assert r == Https + href[2..] by {
        assert href == href[..2] + href[2..];
      }
      StartsWithConcat(Https, href[2..]);
    } else {
      var rest := if IsRootRelative(href) then href else "/" + href;
      assert r == base + rest;
      StartsWithConcat(base, rest);
      if StartsWith(base, Http) {
        StartsWithTransitive(r, base, Http);
      } else {
        StartsWithTransitive(r, base, Https);
      }
    }
  }

  /** Under such a base, resolving is a fixpoint: a resolved URL resolves to itself. */
  lemma ResolveUrlIdempotent(href: string, base: string)
    requires HasHttpScheme(base)
    ensures ResolveUrl(ResolveUrl(href, base), base) == ResolveUrl(href, base)
  {
    ResolveUrlKeepsScheme(href, base);
  }
}

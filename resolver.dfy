/**
  The fallback search `fetchFavicon` (api/favicon.js, copied in worker.js): the fixed list of
  common paths first, then the links scraped from the site's root page; the first response
  that is a valid image wins.
*/
module FaviconResolver {
  import opened Wrappers
  import opened Text
  import opened Urls
  import opened ImageSignatures
  import opened FaviconLinks

  /**
    The world the resolver talks to. `fetch` answers a GET with the body of an ok response, or
    None when the request throws or the response is not ok; `parse` is `new URL(...)`;
    `linkMatches` decodes a page and runs the two link patterns over it.
  */
  datatype Net = Net(
    parse: string -> Option<ParsedUrl>,
    fetch: string -> Option<seq<bv8>>,
    linkMatches: seq<bv8> -> LinkMatches)

  /** The conventional favicon locations, in priority order. */
  const CommonPaths: seq<string> := [
    "/favicon.ico",
    "/favicon.png",
    "/favicon.svg",
    "/apple-touch-icon.png",
    "/apple-touch-icon-precomposed.png",
    "/images/favicon.ico",
    "/images/favicon.png",
    "/assets/favicon.ico",
    "/assets/favicon.png",
    "/static/favicon.ico",
    "/static/favicon.png"
  ]

  function CommonUrls(base: string): (urls: seq<string>)
    ensures |urls| == |CommonPaths| == 11
    ensures forall i :: 0 <= i < |urls| ==> urls[i] == base + CommonPaths[i]
  {
    seq(|CommonPaths|, i requires 0 <= i < |CommonPaths| => base + CommonPaths[i])
  }

  /** The test a probed response must pass: `response.ok`, `byteLength > 0` and `isValidImage`. */
  predicate Accepts(response: Option<seq<bv8>>): (ok: bool)
    ensures ok ==> response.Some? && |response.value| >= 4
  {
    response.Some? && |response.value| > 0 && IsValidImage(response.value)
  }

  /** The length test is subsumed: a response is accepted exactly when its body is a valid image. */
  lemma AcceptsValidImage(response: Option<seq<bv8>>)
    ensures Accepts(response) <==> response.Some? && IsValidImage(response.value)
    ensures Accepts(response) ==> |response.value| >= 4
  {
  }

  /** The index of the first URL whose response is accepted, if any. */
  function FirstAccepted(urls: seq<string>, fetch: string -> Option<seq<bv8>>): (r: Option<nat>)
    ensures r.Some? ==> r.value < |urls| && Accepts(fetch(urls[r.value]))
    ensures r.Some? ==> forall j :: 0 <= j < r.value ==> !Accepts(fetch(urls[j]))
    ensures r.None? <==> forall j :: 0 <= j < |urls| ==> !Accepts(fetch(urls[j]))
  {
    if urls == [] then None
    else if Accepts(fetch(urls[0])) then Some(0)
    else match FirstAccepted(urls[1..], fetch)
      case None => None
      case Some(k) => Some(k + 1)
  }

  /** What probing a list of URLs in order yields: the accepted body, if any, and the URLs tried. */
  datatype Probed = Probed(hit: Option<seq<bv8>>, tried: seq<string>)

  /** Probing stops at the first accepted response, having tried every URL up to it. */
  function Probe(urls: seq<string>, fetch: string -> Option<seq<bv8>>): (p: Probed)
    ensures |p.tried| <= |urls| && p.tried == urls[..|p.tried|]
    ensures p.hit.Some? ==> |p.tried| > 0 && fetch(p.tried[|p.tried| - 1]) == p.hit && Accepts(p.hit)
    ensures p.hit.None? ==> p.tried == urls
  {
    match FirstAccepted(urls, fetch)
    case Some(i) => Probed(Some(fetch(urls[i]).value), urls[..i + 1])
    case None => Probed(None, urls)
  }

  /**
    A probe succeeds exactly when some URL's response is accepted; then it tried a prefix of the
    list, the last URL tried gave the body, and every URL before it was rejected. A probe that
    fails tried the whole list and every URL was rejected.
  */
  lemma ProbeFindsFirstAccepted(urls: seq<string>, fetch: string -> Option<seq<bv8>>)
    ensures Probe(urls, fetch).hit.Some? <==> exists i :: 0 <= i < |urls| && Accepts(fetch(urls[i]))
    ensures var p := Probe(urls, fetch);
      p.hit.Some? ==>
        && 0 < |p.tried| <= |urls| && p.tried == urls[..|p.tried|]
        && fetch(p.tried[|p.tried| - 1]) == p.hit && Accepts(p.hit)
        && forall j :: 0 <= j < |p.tried| - 1 ==> !Accepts(fetch(urls[j]))
    ensures var p := Probe(urls, fetch);
      p.hit.None? ==> p.tried == urls && forall j :: 0 <= j < |urls| ==> !Accepts(fetch(urls[j]))
  {
    var r := FirstAccepted(urls, fetch);
    if r.Some? {
      var i := r.value;
      assert urls[..i + 1][i] == urls[i];
    }
  }

  /**
    The loop both strategies of `fetchFavicon` run: fetch each URL in order, skip a thrown or
    non-ok response, an empty body or an invalid image, and return the first body that passes.
  */
  method ProbeInOrder(urls: seq<string>, fetch: string -> Option<seq<bv8>>) returns (hit: Option<seq<bv8>>, tried: seq<string>)
    ensures Probed(hit, tried) == Probe(urls, fetch)
  {
    tried := [];
    for i := 0 to |urls|
      invariant tried == urls[..i]
      invariant forall j :: 0 <= j < i ==> !Accepts(fetch(urls[j]))
    {
      var url := urls[i];
      var response := fetch(url);
      tried := tried + [url];
      if response.Some? {
        var buffer := response.value;
        if |buffer| > 0 && IsValidImage(buffer) {
          assert FirstAccepted(urls, fetch) == Some(i);
          return Some(buffer), tried;
        }
      }
    }
    assert tried == urls;
    return None, tried;
  }

  /** The terminal outcomes of `fetchFavicon`: the thrown `Invalid URL`, null, or a buffer. */
  datatype Outcome = InvalidUrl | NotFound | Found(image: seq<bv8>)

  /** An outcome together with the URLs requested to reach it, in request order. */
  datatype Attempt = Attempt(outcome: Outcome, requested: seq<string>)

  /** The links the root page offers: decoded, matched, resolved against the base, de-duplicated. */
  function PageLinks(base: string, page: seq<bv8>, net: Net): seq<string>
  {
    FaviconUrls(net.linkMatches(page), base)
  }

  /**
    The specification of `fetchFavicon`, as one function of the input and the network. It throws
    `Invalid URL` exactly when it requests nothing: a derivable base is always probed.
  */
  function Search(input: string, net: Net): (a: Attempt)
    ensures a.outcome == InvalidUrl <==> a.requested == []
  {
    match GetBaseUrl(input, net.parse)
    case None => Attempt(InvalidUrl, [])
    case Some(base) => SearchSite(base, net)
  }

  /**
    The two strategies on a base URL: the common paths, then the root page's links. They never
    throw, and they request at least one URL.
  */
  function SearchSite(base: string, net: Net): (a: Attempt)
    ensures a.outcome != InvalidUrl && |a.requested| > 0
  {
    var common := Probe(CommonUrls(base), net.fetch);
    if common.hit.Some? then Attempt(Found(common.hit.value), common.tried)
    else match net.fetch(base)
      case None => Attempt(NotFound, common.tried + [base])
      case Some(page) =>
        var links := Probe(PageLinks(base, page, net), net.fetch);
        var outcome := if links.hit.Some? then Found(links.hit.value) else NotFound;
        Attempt(outcome, common.tried + [base] + links.tried)
  }


  /** The search fails with `Invalid URL` exactly when no base URL can be derived, and then fetches nothing. */
  lemma SearchThrowsOnlyOnInvalidBase(input: string, net: Net)
    ensures Search(input, net).outcome == InvalidUrl <==> GetBaseUrl(input, net.parse).None?
    ensures Search(input, net).outcome == InvalidUrl ==> Search(input, net).requested == []
  {
  }

  /**
    Whatever the search returns is the accepted body of the last URL it requested: a valid
    image of at least four bytes.
  */
  lemma FoundIsValidImage(input: string, net: Net)
    requires Search(input, net).outcome.Found?
    ensures var a := Search(input, net);
      && |a.requested| > 0
      && net.fetch(a.requested[|a.requested| - 1]) == Some(a.outcome.image)
      && IsValidImage(a.outcome.image) && |a.outcome.image| >= 4
  {
    SiteFoundIsValidImage(GetBaseUrl(input, net.parse).value, net);
  }

  /** The same, for the two strategies on a base URL. */
  lemma SiteFoundIsValidImage(base: string, net: Net)
    requires SearchSite(base, net).outcome.Found?
    ensures var a := SearchSite(base, net);
      && |a.requested| > 0
      && net.fetch(a.requested[|a.requested| - 1]) == Some(a.outcome.image)
      && IsValidImage(a.outcome.image) && |a.outcome.image| >= 4
  {
    var common := Probe(CommonUrls(base), net.fetch);
    if common.hit.None? {
      var page := net.fetch(base).value;
      var links := Probe(PageLinks(base, page, net), net.fetch);
      assert links.hit.Some?;
      LastOfAppend(common.tried + [base], links.tried);
    }
  }

  /** The last element of a concatenation with a non-empty tail is the tail's last element. */
  lemma LastOfAppend(front: seq<string>, tail: seq<string>)
    requires |tail| > 0
    ensures (front + tail)[|front + tail| - 1] == tail[|tail| - 1]
  {
  }

  /**
    Common-path priority: when some common path of the base yields a valid image, the search
    returns a common-path image and never requests the root page or a scraped link; it stops
    at the first accepted path.
  */
  lemma {:induction false} CommonPathsTakePriority(input: string, net: Net, base: string, i: nat)
    requires GetBaseUrl(input, net.parse) == Some(base)
    requires i < |CommonPaths| && Accepts(net.fetch(base + CommonPaths[i]))
    ensures Search(input, net).outcome.Found?
    ensures 0 < |Search(input, net).requested| <= i + 1
    ensures Search(input, net).requested == CommonUrls(base)[..|Search(input, net).requested|]
    ensures forall j :: 0 <= j < |Search(input, net).requested| - 1 ==> !Accepts(net.fetch(base + CommonPaths[j]))
  {
    var common := CommonUrls(base);
    ProbeFindsFirstAccepted(common, net.fetch);
    assert Accepts(net.fetch(common[i]));
    var p := Probe(common, net.fetch);
    assert Search(input, net) == Attempt(Found(p.hit.value), p.tried);
    forall j | 0 <= j < |p.tried| - 1 ensures !Accepts(net.fetch(base + CommonPaths[j])) {
      assert common[j] == base + CommonPaths[j];
    }
  }

  /** Given valid images at both `/favicon.ico` and `/favicon.png`, the `/favicon.ico` one is returned. */
  lemma FaviconIcoFirst(input: string, net: Net, base: string)
    requires GetBaseUrl(input, net.parse) == Some(base)
    requires Accepts(net.fetch(base + "/favicon.ico")) && Accepts(net.fetch(base + "/favicon.png"))
    ensures Search(input, net) == Attempt(Found(net.fetch(base + "/favicon.ico").value), [base + "/favicon.ico"])
  {
    var common := CommonUrls(base);
    assert common[0] == base + "/favicon.ico";
    assert common[..1] == [base + "/favicon.ico"];
    assert FirstAccepted(common, net.fetch) == Some(0);
  }

  /**
    The root page is requested only after all eleven common paths failed, and scraped links only
    after the root page loaded, in the order `extractFaviconUrls` lists them.
  */
  lemma {:induction false} LinksOnlyAfterCommonPaths(input: string, net: Net)
    requires |Search(input, net).requested| > |CommonPaths|
    ensures GetBaseUrl(input, net.parse).Some?
    ensures var base := GetBaseUrl(input, net.parse).value;
      && (forall j :: 0 <= j < |CommonPaths| ==> !Accepts(net.fetch(base + CommonPaths[j])))
      && StartsWith(Search(input, net).requested, CommonUrls(base) + [base])
    ensures var base := GetBaseUrl(input, net.parse).value;
      |Search(input, net).requested| > |CommonPaths| + 1 ==>
        && net.fetch(base).Some?
        && StartsWith(PageLinks(base, net.fetch(base).value, net), Search(input, net).requested[|CommonPaths| + 1..])
  {
    var base := GetBaseUrl(input, net.parse).value;
    var common := CommonUrls(base);
    var p := Probe(common, net.fetch);
    ProbeFindsFirstAccepted(common, net.fetch);
    assert p.hit.None?;
    forall j | 0 <= j < |CommonPaths| ensures !Accepts(net.fetch(base + CommonPaths[j])) {
      assert common[j] == base + CommonPaths[j];
    }
    var before := common + [base];
    var a := Search(input, net);
    if net.fetch(base).None? {
      assert a.requested == before;
      StartsWithConcat(before, []);
    } else {
      var links := PageLinks(base, net.fetch(base).value, net);
      var q := Probe(links, net.fetch);
      ProbeFindsFirstAccepted(links, net.fetch);
      assert a.requested == before + q.tried;
      StartsWithConcat(before, q.tried);
      assert a.requested[|before|..] == q.tried;
    }
  }

  /**
    Null exactly when every candidate fails: the base is derivable, no common path is accepted,
    and either the root page does not load or none of its links is accepted.
  */
  lemma NotFoundIffAllCandidatesFail(input: string, net: Net)
    ensures Search(input, net).outcome == NotFound <==>
      && GetBaseUrl(input, net.parse).Some?
      && (forall j :: 0 <= j < |CommonPaths| ==> !Accepts(net.fetch(GetBaseUrl(input, net.parse).value + CommonPaths[j])))
      && (net.fetch(GetBaseUrl(input, net.parse).value).Some? ==>
            var base := GetBaseUrl(input, net.parse).value;
            var links := PageLinks(base, net.fetch(base).value, net);
            forall j :: 0 <= j < |links| ==> !Accepts(net.fetch(links[j])))
  {
    if GetBaseUrl(input, net.parse).Some? {
      var base := GetBaseUrl(input, net.parse).value;
      var common := CommonUrls(base);
      ProbeFindsFirstAccepted(common, net.fetch);
      if Probe(common, net.fetch).hit.Some? {
        var i :| 0 <= i < |common| && Accepts(net.fetch(common[i]));
        assert Accepts(net.fetch(base + CommonPaths[i]));
      } else {
        forall j | 0 <= j < |CommonPaths| ensures !Accepts(net.fetch(base + CommonPaths[j])) {
          assert common[j] == base + CommonPaths[j];
        }
        if net.fetch(base).Some? {
          ProbeFindsFirstAccepted(PageLinks(base, net.fetch(base).value, net), net.fetch);
        }
      }
    }
  }

  /**
    When no common path yields an image but the root page loads and its first link does, the
    search returns that link's body, having requested the eleven paths, the page and that link.
  */
  lemma {:induction false} FirstLinkWinsAfterCommonPaths(input: string, net: Net, base: string, page: seq<bv8>)
    requires GetBaseUrl(input, net.parse) == Some(base)
    requires forall j :: 0 <= j < |CommonPaths| ==> !Accepts(net.fetch(base + CommonPaths[j]))
    requires net.fetch(base) == Some(page)
    requires |PageLinks(base, page, net)| > 0 && Accepts(net.fetch(PageLinks(base, page, net)[0]))
    ensures var link := PageLinks(base, page, net)[0];
      Search(input, net) == Attempt(Found(net.fetch(link).value), CommonUrls(base) + [base] + [link])
  {
    CommonProbeMisses(base, net.fetch);
    var links := PageLinks(base, page, net);
    ProbeHitsHead(links, net.fetch);
    assert SearchSite(base, net) == Attempt(Found(net.fetch(links[0]).value), CommonUrls(base) + [base] + [links[0]]);
  }

  /** A probe of the common paths that all fail tries all of them and finds nothing. */
  lemma CommonProbeMisses(base: string, fetch: string -> Option<seq<bv8>>)
    requires forall j :: 0 <= j < |CommonPaths| ==> !Accepts(fetch(base + CommonPaths[j]))
    ensures Probe(CommonUrls(base), fetch) == Probed(None, CommonUrls(base))
  {
    var common := CommonUrls(base);
    forall j | 0 <= j < |common| ensures !Accepts(fetch(common[j])) {
      assert common[j] == base + CommonPaths[j];
    }
  }

  /** A probe whose first URL is accepted stops there. */
  lemma ProbeHitsHead(urls: seq<string>, fetch: string -> Option<seq<bv8>>)
    requires |urls| > 0 && Accepts(fetch(urls[0]))
    ensures Probe(urls, fetch) == Probed(fetch(urls[0]), [urls[0]])
  {
    assert urls[..1] == [urls[0]];
  }

  /** Under an http(s) base, the common-path URLs and the base itself are http(s) URLs. */
  lemma {:induction false} CommonUrlsHaveScheme(base: string, url: string)
    requires HasHttpScheme(base)
    requires url in CommonUrls(base) + [base]
    ensures HasHttpScheme(url)
  {
    var before := CommonUrls(base) + [base];
    var i := IndexOf(before, url);
    if i < |CommonPaths| {
      assert url == base + CommonPaths[i];
      StartsWithConcat(base, CommonPaths[i]);
      if StartsWith(base, Http) { StartsWithTransitive(url, base, Http); }
      else { StartsWithTransitive(url, base, Https); }
    }
  }

  /** Under an http(s) base, every link scraped from a page is an http(s) URL. */
  lemma {:induction false} PageLinksHaveScheme(base: string, page: seq<bv8>, net: Net, url: string)
    requires HasHttpScheme(base)
    requires url in PageLinks(base, page, net)
    ensures HasHttpScheme(url)
  {
    var m := net.linkMatches(page);
    FaviconUrlsMembers(m, base, url);
    var href :| (href in m.relFirst || href in m.hrefFirst) && href != "" && url == ResolveUrl(href, base);
    ResolveUrlKeepsScheme(href, base);
  }

  /**
    The search requests nothing but candidates: a common-path URL, the root page, or a link
    extracted from the root page.
  */
  lemma {:induction false} RequestsAreCandidates(input: string, net: Net, url: string)
    requires url in Search(input, net).requested
    ensures GetBaseUrl(input, net.parse).Some?
    ensures var base := GetBaseUrl(input, net.parse).value;
      || url in CommonUrls(base) + [base]
      || (net.fetch(base).Some? && url in PageLinks(base, net.fetch(base).value, net))
  {
    var base := GetBaseUrl(input, net.parse).value;
    var common := CommonUrls(base);
    var p := Probe(common, net.fetch);
    ProbeFindsFirstAccepted(common, net.fetch);
    var a := Search(input, net);
    if p.hit.Some? {
      assert a.requested == common[..|p.tried|];
      assert url in common;
    } else if net.fetch(base).Some? {
      var links := PageLinks(base, net.fetch(base).value, net);
      var q := Probe(links, net.fetch);
      ProbeFindsFirstAccepted(links, net.fetch);
      assert a.requested == (common + [base]) + links[..|q.tried|];
    }
  }

  /**
    With a URL parser that keeps the scheme, every request the search makes goes to an
    `http://` or `https://` URL: common paths and the root page sit under the base, and
    resolved links keep the base's scheme.
  */
  lemma RequestsUseHttpSchemes(input: string, net: Net, url: string)
    requires net.parse(NormalizeUrl(input)).Some?
    requires SchemePreserving(NormalizeUrl(input), net.parse(NormalizeUrl(input)).value)
    requires url in Search(input, net).requested
    ensures HasHttpScheme(url)
  {
    BaseUrlHasScheme(input, net.parse);
    RequestsAreCandidates(input, net, url);
    var base := GetBaseUrl(input, net.parse).value;
    if url in CommonUrls(base) + [base] {
      CommonUrlsHaveScheme(base, url);
    } else {
      PageLinksHaveScheme(base, net.fetch(base).value, net, url);
    }
  }

  /**
    `fetchFavicon`: throws when the base URL cannot be derived; probes the common paths in
    order, then (if the root page loads) the links extracted from it in order; returns the
    first accepted body, else null. `requested` lists the URLs fetched, in order.
  */
  method FetchFavicon(inputUrl: string, net: Net) returns (outcome: Outcome, requested: seq<string>)
    ensures Attempt(outcome, requested) == Search(inputUrl, net)
  {
    var baseUrl := GetBaseUrl(inputUrl, net.parse);
    if baseUrl.None? {
      return InvalidUrl, [];
    }
    var base := baseUrl.value;

    // Strategy 1: the common paths
    var hit, tried := ProbeInOrder(CommonUrls(base), net.fetch);
    requested := tried;
    if hit.Some? {
      return Found(hit.value), requested;
    }

    // Strategy 2: the links on the root page
    var htmlResponse := net.fetch(base);
    requested := requested + [base];
    if htmlResponse.Some? {
      var faviconUrls := ExtractFaviconUrls(net.linkMatches(htmlResponse.value), base);
      hit, tried := ProbeInOrder(faviconUrls, net.fetch);
      requested := requested + tried;
      if hit.Some? {
        return Found(hit.value), requested;
      }
    }
    return NotFound, requested;
  }
}

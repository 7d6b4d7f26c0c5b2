/**
  The HTTP surface: the Vercel `handler` (api/favicon.js) and the Cloudflare worker's router and
  `handleFaviconRequest` (worker.js). CORS headers and the embedded demo page's contents are
  not modelled; a response is its status, the Content-Type and Cache-Control it sets, and its body.
*/
module Endpoints {
  import opened Wrappers
  import opened Text
  import opened Urls
  import opened ImageSignatures
  import opened FaviconResolver

  datatype Body =
    | NoBody
    | JsonError(message: string)   // `{ error: message }`
    | ImageBody(bytes: seq<bv8>)
    | DemoPage                     // the embedded HTML_CONTENT
    | PlainText(text: string)

  datatype Response = Response(status: nat, contentType: Option<string>, cacheControl: Option<string>, body: Body)

  /**
    What the handlers read from a request: its method (`verb`), its path, and the `url` query parameter
    (None when absent).
  */
  datatype Request = Request(verb: string, pathname: string, urlParam: Option<string>)

  const JsonType: string := "application/json"
  const OneDay: string := "public, max-age=86400"

  /** `if (!url)`: an absent parameter and an empty one are both missing. */
  predicate HasUrlParam(urlParam: Option<string>)
  {
    urlParam.Some? && urlParam.value != ""
  }

  function ErrorResponse(status: nat, message: string): Response
  {
    Response(status, Some(JsonType), None, JsonError(message))
  }

  const PreflightResponse: Response := Response(200, None, None, NoBody)
  const MissingUrlResponse: Response := ErrorResponse(400, "URL parameter is required")

  /**
    The `try` block shared by both deployments: null becomes 404, a thrown error 500, and a
    buffer 200 with its sniffed Content-Type and a one-day cache.
  */
  function FaviconResponse(outcome: Outcome): (r: Response)
    ensures r.status == 200 <==> outcome.Found?
    ensures r.status == 404 <==> outcome == NotFound
    ensures r.status == 500 <==> outcome == InvalidUrl
    ensures outcome.Found? ==>
      && r.body == ImageBody(outcome.image)
      && r.contentType == Some(GetContentType(outcome.image))
      && r.cacheControl == Some(OneDay)
    ensures !outcome.Found? ==> r.body.JsonError? && r.contentType == Some(JsonType) && r.cacheControl.None?
  {
    match outcome
    case NotFound => ErrorResponse(404, "Favicon not found")
    case InvalidUrl => ErrorResponse(500, "Internal server error")
    case Found(image) => Response(200, Some(GetContentType(image)), Some(OneDay), ImageBody(image))
  }

  /**
    Every 200 answer of the favicon endpoint carries a valid image of at least four bytes,
    served under the MIME type of its signature (an `<?xm` opening is `image/svg+xml` or
    `image/x-icon`, as the SVG sniff decides).
  */
  lemma {:induction false} SuccessCarriesTypedImage(input: string, net: Net)
    requires FaviconResponse(Search(input, net).outcome).status == 200
    ensures var r := FaviconResponse(Search(input, net).outcome);
      && r.body.ImageBody? && IsValidImage(r.body.bytes) && |r.body.bytes| >= 4
      && r.contentType.Some? && r.contentType.value in {PngMime, JpegMime, GifMime, IconMime, SvgMime}
      && forall kind :: StartsWith(r.body.bytes, SignatureOf(kind)) ==>
           r.contentType.value ==
             if kind != XmlDecl then MimeOf(kind)
             else if SniffsSvg(r.body.bytes) then SvgMime else IconMime
  {
    FoundIsValidImage(input, net);
    var b := Search(input, net).outcome.image;
    forall kind | StartsWith(b, SignatureOf(kind))
      ensures GetContentType(b) ==
        if kind != XmlDecl then MimeOf(kind) else if SniffsSvg(b) then SvgMime else IconMime
    {
      ContentTypeOfValidImage(b, kind);
    }
  }

  /**
    A site with no common-path favicon whose first scraped link is a PNG is answered 200 with
    that PNG, as `image/png`.
  */
  lemma LinkedPngServedAsPng(input: string, net: Net, base: string, page: seq<bv8>)
    requires GetBaseUrl(input, net.parse) == Some(base)
    requires forall j :: 0 <= j < |CommonPaths| ==> !Accepts(net.fetch(base + CommonPaths[j]))
    requires net.fetch(base) == Some(page)
    requires |PageLinks(base, page, net)| > 0
    requires var png := net.fetch(PageLinks(base, page, net)[0]);
      png.Some? && |png.value| >= 4 && StartsWith(png.value, SignatureOf(Png))
    ensures var png := net.fetch(PageLinks(base, page, net)[0]).value;
      FaviconResponse(Search(input, net).outcome) == Response(200, Some(PngMime), Some(OneDay), ImageBody(png))
  {
    var png := net.fetch(PageLinks(base, page, net)[0]).value;
    ValidImageKinds(png);
    FirstLinkWinsAfterCommonPaths(input, net, base, page);
    ContentTypeOfValidImage(png, Png);
  }

  /**
    The Vercel `handler`: OPTIONS is answered 200 at once, any other method but GET gets 405,
    a missing `url` 400 without any fetch, and otherwise `fetchFavicon`'s outcome decides.
  */
  method Handler(req: Request, net: Net) returns (resp: Response, requested: seq<string>)
    ensures req.verb == "OPTIONS" ==> resp == PreflightResponse && requested == []
    ensures req.verb != "OPTIONS" && req.verb != "GET" ==>
      resp == ErrorResponse(405, "Method not allowed") && requested == []
    ensures req.verb == "GET" && !HasUrlParam(req.urlParam) ==> resp == MissingUrlResponse && requested == []
    ensures req.verb == "GET" && HasUrlParam(req.urlParam) ==>
      var a := Search(req.urlParam.value, net);
      resp == FaviconResponse(a.outcome) && requested == a.requested
    ensures resp.status in {200, 400, 404, 405, 500}
  {
    if req.verb == "OPTIONS" {
      return PreflightResponse, [];
    }
    if req.verb != "GET" {
      return ErrorResponse(405, "Method not allowed"), [];
    }
    if !HasUrlParam(req.urlParam) {
      return MissingUrlResponse, [];
    }
    var outcome;
    outcome, requested := FetchFavicon(req.urlParam.value, net);
    resp := FaviconResponse(outcome);
  }

  /**
    The worker's `handleFaviconRequest`: like the Vercel handler after its method checks —
    a missing `url` is 400 without any fetch, otherwise the outcome decides.
  */
  method HandleFaviconRequest(urlParam: Option<string>, net: Net) returns (resp: Response, requested: seq<string>)
    ensures !HasUrlParam(urlParam) ==> resp == MissingUrlResponse && requested == []
    ensures HasUrlParam(urlParam) ==>
      var a := Search(urlParam.value, net);
      resp == FaviconResponse(a.outcome) && requested == a.requested
    ensures resp.status in {200, 400, 404, 500}
  {
    if !HasUrlParam(urlParam) {
      return MissingUrlResponse, [];
    }
    var outcome;
    outcome, requested := FetchFavicon(urlParam.value, net);
    resp := FaviconResponse(outcome);
  }

  /** Where the worker's default `fetch` sends a request. */
  datatype Route = Preflight | StaticPage | FaviconApi | NoRoute

  /** OPTIONS first, whatever the path; then the demo page, the favicon API, or nothing. */
  function RouteOf(verb: string, pathname: string): (r: Route)
    ensures verb == "OPTIONS" <==> r == Preflight
    ensures r == FaviconApi <==> verb != "OPTIONS" && pathname == "/api/favicon"
    ensures r == StaticPage <==> verb != "OPTIONS" && pathname in {"/", "/index.html"}
  {
    if verb == "OPTIONS" then Preflight
    else if pathname == "/" || pathname == "/index.html" then StaticPage
    else if pathname == "/api/favicon" then FaviconApi
    else NoRoute
  }

  /**
    The worker's default `fetch`. Unlike the Vercel handler it never answers 405: every method
    other than OPTIONS reaches `handleFaviconRequest` on `/api/favicon`.
  */
  method WorkerFetch(req: Request, net: Net) returns (resp: Response, requested: seq<string>)
    ensures req.verb == "OPTIONS" ==> resp == PreflightResponse && requested == []
    ensures RouteOf(req.verb, req.pathname) == StaticPage ==>
      resp == Response(200, Some("text/html"), None, DemoPage) && requested == []
    ensures RouteOf(req.verb, req.pathname) == NoRoute ==>
      resp == Response(404, None, None, PlainText("Not Found")) && requested == []
    ensures req.verb != "OPTIONS" && req.pathname == "/api/favicon" ==>
      if HasUrlParam(req.urlParam) then
        var a := Search(req.urlParam.value, net);
        resp == FaviconResponse(a.outcome) && requested == a.requested
      else resp == MissingUrlResponse && requested == []
    ensures resp.status != 405
  {
    match RouteOf(req.verb, req.pathname)
    case Preflight =>
      return PreflightResponse, [];
    case StaticPage =>
      return Response(200, Some("text/html"), None, DemoPage), [];
    case FaviconApi =>
      resp, requested := HandleFaviconRequest(req.urlParam, net);
    case NoRoute =>
      return Response(404, None, None, PlainText("Not Found")), [];
  }
}

# favicon-grabber, modelled in Dafny

favicon-grabber answers `GET /api/favicon?url=<site>` with the site's favicon. It ships two
deployments: a Vercel serverless handler (`api/favicon.js`) and a Cloudflare worker
(`worker.js`). The worker also serves the demo page. Both deployments use the same resolver:

- **URL normalisation** (`normalizeUrl`, `getBaseUrl`): a missing scheme becomes `https://`, and
  the base is `protocol//hostname`.
- **`fetchFavicon`**: a fixed list of eleven common paths is probed in order. If none of them
  yields an image, the root page is fetched. The page's `<link rel="icon" …>` hrefs are then
  resolved (`resolveUrl`), de-duplicated (`extractFaviconUrls`) and probed in order. The first
  ok response that is a non-empty buffer with a known image signature (`isValidImage`) wins.
- **`getContentType`**: sniffs the MIME type from the image's first bytes.
- **The handlers**: map the outcome to 200, 400, 404, 405 or 500.

The model keeps one copy of each resolver function. The worker's copies (`worker.js:86-270`)
follow the Vercel copies (`api/favicon.js:44-237`) branch for branch. They differ in three
places, none of which changes which bytes are returned:

- The worker passes the timeout as `cf: { timeout: 10000 }` (`worker.js:129-131`, `151-153`,
  `166-168`). The Vercel copy passes `timeout: 10000` (`api/favicon.js:89`, `110`, `123`).
  The timeout is not modelled.
- The worker returns the raw `ArrayBuffer` (`worker.js:137`, `174`). The Vercel copy wraps the
  same bytes in `Buffer.from(buffer)` (`api/favicon.js:95`, `129`).
- The SVG sniff decodes the first 100 bytes with `TextDecoder` in the worker and with
  `Buffer.toString('utf8')` in the Vercel copy.

The comments also differ. The `## Model` table cites the Vercel lines for the shared functions.

Modules:

| file | module | contents |
|---|---|---|
| `wrappers.dfy` | `Wrappers` | `Option` |
| `text.dfy` | `Text` | prefix and substring predicates on sequences |
| `urls.dfy` | `Urls` | `normalizeUrl`, `getBaseUrl`, `resolveUrl` |
| `signatures.dfy` | `ImageSignatures` | `isValidImage`, `getContentType` |
| `links.dfy` | `FaviconLinks` | `extractFaviconUrls`, with first-seen de-duplication |
| `resolver.dfy` | `FaviconResolver` | `fetchFavicon`, with the specification function `Search` |
| `endpoints.dfy` | `Endpoints` | the Vercel `handler`, the worker router and `handleFaviconRequest` |

The outside world the resolver touches is a value `Net`:

- `parse` stands for `new URL(...)`. It gives the protocol and hostname, or None when the
  constructor throws.
- `fetch` gives the body of an ok response. It gives None when the request throws, times out
  or is not ok.
- `linkMatches` stands for decoding the root page and running the two link patterns over it.
  It gives each pattern's first capture groups, in match order.

The URL `fetch` sees is exactly the string the source passes to `fetch`. `FetchFavicon`
additionally returns the list of URLs it requested, in order. This log is how the request
order of the source is stated and proved.

`FetchFavicon` is an imperative method with the source's two probing loops. Both loops run
through the single method `ProbeInOrder`. `FetchFavicon` is proved equal to the pure function
`Search`, and the remaining properties are proved as lemmas about `Search`. The status mapping
that follows the `try` block is the pure function `FaviconResponse`. The handlers are methods,
because they call `FetchFavicon`.

## Model

| member | source | states |
|---|---|---|
| Urls.NormalizeUrl | api/favicon.js:44-49 | The result always starts with `http://` or `https://`. It equals the input exactly when the input already has one of those schemes. Otherwise it is `https://` followed by the input. |
| Urls.NormalizeUrlIdempotent | api/favicon.js:44-49 | Normalising twice gives the same URL as normalising once. |
| Urls.GetBaseUrl | api/favicon.js:52-59 | The result is null exactly when parsing the normalised URL fails. Otherwise it is `protocol + "//" + hostname` of the parsed URL, with no port, path or query. |
| Urls.BaseUrlHasScheme | api/favicon.js:52-59 | The parser may keep the scheme that normalisation chose and report a non-empty host. Under that assumption, the base URL is an http(s) URL longer than the bare scheme. |
| Urls.ResolveUrl | api/favicon.js:168-182 | The href is always the tail of the result. An http(s) href is returned unchanged. A protocol-relative `//` href gets `https:` in front. A root-relative `/` href gets the base in front. Any other href gets `base + "/"` in front. |
| Urls.ResolveUrlKeepsScheme | api/favicon.js:168-182 | Against an http(s) base, every resolved href is an http(s) URL. |
| Urls.ResolveUrlIdempotent | api/favicon.js:168-182 | Resolving an already-resolved URL against an http(s) base leaves it unchanged. |
| ImageSignatures.SignatureOf | api/favicon.js:189-196 | Each of the six signatures is three or four bytes long. |
| ImageSignatures.MatchesSome | api/favicon.js:198-200 | `signatures.some(...)`: true exactly when the buffer starts with some listed signature. |
| ImageSignatures.IsValidImage | api/favicon.js:185-201 | No buffer shorter than four bytes is valid. |
| ImageSignatures.ValidImageKinds | api/favicon.js:185-201 | A buffer is valid exactly when it has at least four bytes and starts with the signature of one of the six kinds. |
| ImageSignatures.SignaturesExclusive | api/favicon.js:189-196 | No buffer starts with two different signatures, so the kind of a valid image is unique. |
| ImageSignatures.SignatureBytes | api/favicon.js:198-200 | On a buffer of at least four bytes, `sig.every(...)` holds exactly when the buffer agrees with the signature on each of its three or four bytes. |
| ImageSignatures.ValidImageBytes | api/favicon.js:185-201 | Validity, spelled out byte by byte: at least four bytes, and `89 50 4E 47`, `FF D8 FF`, `47 49 46`, `00 00 01 00`, `3C 73 76 67` or `3C 3F 78 6D` at the start. |
| ImageSignatures.ShortHeadersRejected | api/favicon.js:186 | A bare three-byte JPEG or GIF header is rejected by the length guard, while a four-byte JPEG header is accepted. |
| ImageSignatures.SniffsSvg | api/favicon.js:229-230 | The SVG sniff always fires on a buffer that opens with `<svg` or `<?xml`, and never on a buffer shorter than four bytes. |
| ImageSignatures.GetContentType | api/favicon.js:204-236 | The result is one of five MIME types. A buffer under four bytes is an icon. From four bytes on, png, jpeg and gif are reported exactly when their signature opens the buffer. An ICO header gives `image/x-icon`. `image/svg+xml` is reported exactly when the buffer has four bytes, opens with no binary signature, and has `<svg` or `<?xml` in its first 100 bytes. |
| ImageSignatures.ContentTypeOfValidImage | api/favicon.js:204-236 | A valid image is served under the MIME type of its signature. The exception is a `<?xm` opening: it is svg when the SVG sniff succeeds and an icon otherwise, and always svg when the fifth byte is `l`. |
| ImageSignatures.XmlPrefixAloneIsIcon | api/favicon.js:229-236 | The buffer `3C 3F 78 6D 00` passes `isValidImage` and is still served as `image/x-icon`. |
| FaviconLinks.Pushed | api/favicon.js:155-161 | The inner `while` over one pattern's matches pushes at most one URL per capture. |
| FaviconLinks.PushedStep | api/favicon.js:156-160 | One more match pushes its resolved capture when the capture is non-empty, and nothing otherwise. |
| FaviconLinks.PushedFromCaptures | api/favicon.js:157-160 | Every pushed URL is the resolved form of a non-empty capture. |
| FaviconLinks.CapturePushed | api/favicon.js:157-160 | Every non-empty capture is pushed in resolved form. |
| FaviconLinks.Collected | api/favicon.js:154-162 | The outer `for…of` over the two patterns leaves at most one URL per capture of all the patterns together. |
| FaviconLinks.CollectedStep | api/favicon.js:154-162 | Visiting one more pattern appends what its inner loop pushed after everything collected so far. |
| FaviconLinks.FaviconUrls | api/favicon.js:145-165 | The specification of `extractFaviconUrls`: the result has no duplicates, every element is a collected URL, and there is at most one URL per capture. |
| FaviconLinks.Dedup | api/favicon.js:164 | `[...new Set(urls)]`: the result has no duplicates, each of its elements comes from the input, and it is no longer than the input. |
| FaviconLinks.DedupMembers | api/favicon.js:164 | De-duplication keeps exactly the input's elements. |
| FaviconLinks.IndexOf | api/favicon.js:164 | The first position of an element: it holds the element, and no earlier position does. |
| FaviconLinks.IndexOfPrefix | api/favicon.js:164 | An element's first position is the same in a sequence and in any prefix that contains the element. |
| FaviconLinks.DedupFirstSeenOrder | api/favicon.js:164 | The de-duplicated list is in order of first occurrence in the input. |
| FaviconLinks.DedupPreservesOrder | api/favicon.js:164 | An element first seen before another stays before it after de-duplication. |
| FaviconLinks.PushedMembers | api/favicon.js:155-161 | A pattern contributes exactly the resolved forms of its non-empty captures. |
| FaviconLinks.CollectedPatterns | api/favicon.js:149-162 | The collected list is the rel-first pattern's URLs followed by the href-first pattern's URLs. |
| FaviconLinks.FaviconUrlsMembers | api/favicon.js:145-165 | `extractFaviconUrls` returns a duplicate-free list. A URL is in it exactly when it is the resolved form of a non-empty capture of either pattern. |
| FaviconLinks.RelFirstMatchesComeFirst | api/favicon.js:149-164 | Every URL from the rel-first pattern precedes every URL found only by the href-first pattern. |
| FaviconLinks.ExtractFaviconUrls | api/favicon.js:145-165 | The loop over the patterns and their matches computes exactly the specified de-duplicated list. |
| FaviconResolver.CommonUrls | api/favicon.js:69-86 | Eleven candidates, in source order, each the base followed by its path. |
| FaviconResolver.AcceptsValidImage | api/favicon.js:92-94 | A response is accepted exactly when it is ok and its non-empty body passes `isValidImage`, which implies at least four bytes. |
| FaviconResolver.Accepts | api/favicon.js:92-94 | The acceptance test: an accepted response is ok and its body has at least four bytes. |
| FaviconResolver.FirstAccepted | api/favicon.js:83-102 | The early-return loop: it finds the first index whose response is accepted, or reports that no response is accepted. |
| FaviconResolver.Probe | api/favicon.js:83-102 | The probe loop requests a prefix of its list. On a hit, the last URL requested gave the returned body and that body was accepted. On a miss, it requested the whole list. |
| FaviconResolver.ProbeFindsFirstAccepted | api/favicon.js:83-102 | A probe hits exactly when some candidate is accepted. On a hit, it tried a prefix of the list, the last URL tried gave the body, and every earlier URL was rejected. On a miss, it tried every URL. |
| FaviconResolver.ProbeInOrder | api/favicon.js:83-102 | The probing loop, as written, returns the specified hit and the URLs it requested. |
| FaviconResolver.CommonProbeMisses | api/favicon.js:83-102 | When all eleven paths fail, the first strategy requests all of them and finds nothing. |
| FaviconResolver.ProbeHitsHead | api/favicon.js:117-130 | A probe whose first URL is accepted requests only that URL. |
| FaviconResolver.Search | api/favicon.js:62-142 | The specification of `fetchFavicon`: it throws `Invalid URL` exactly when it requests nothing. |
| FaviconResolver.SearchSite | api/favicon.js:68-141 | The two strategies on a derived base URL never throw and always request at least one URL. |
| FaviconResolver.FetchFavicon | api/favicon.js:62-142 | The method returns exactly the outcome and request log of the specification `Search`. |
| FaviconResolver.SearchThrowsOnlyOnInvalidBase | api/favicon.js:63-66 | `Invalid URL` is thrown exactly when no base URL can be derived, and then nothing is fetched. |
| FaviconResolver.FoundIsValidImage | api/favicon.js:92-95 | A returned buffer is the body of the last URL requested, and it is a valid image of at least four bytes. |
| FaviconResolver.SiteFoundIsValidImage | api/favicon.js:92-95 | When the two strategies return a buffer, it is the body of the last URL they requested and a valid image of at least four bytes. |
| FaviconResolver.CommonPathsTakePriority | api/favicon.js:83-102 | If any common path yields an image, a common-path image is returned. Only a prefix of the common list is requested, never the root page or a link. Every path before the returned one failed. |
| FaviconResolver.FaviconIcoFirst | api/favicon.js:69-71 | When both `/favicon.ico` and `/favicon.png` are valid, the `/favicon.ico` image is returned after that single request. |
| FaviconResolver.LinksOnlyAfterCommonPaths | api/favicon.js:104-118 | The root page is requested only after all eleven common paths failed. Links are requested only after the root page loaded, and in `extractFaviconUrls` order. |
| FaviconResolver.FirstLinkWinsAfterCommonPaths | api/favicon.js:104-130 | With no common-path image, a loaded root page and an accepted first link, the link's body is returned after requesting the eleven paths, the page and that link. |
| FaviconResolver.NotFoundIffAllCandidatesFail | api/favicon.js:62-142 | Null is returned exactly when the base is valid, no common path is accepted, and either the root page fails or none of its links is accepted. |
| FaviconResolver.CommonUrlsHaveScheme | api/favicon.js:86 | Under an http(s) base, every common-path URL and the base itself are http(s) URLs. |
| FaviconResolver.PageLinksHaveScheme | api/favicon.js:115-120 | Under an http(s) base, every scraped link is an http(s) URL. |
| FaviconResolver.RequestsAreCandidates | api/favicon.js:62-142 | Every URL the search requests is a common-path URL, the base, or a scraped link of the loaded root page. |
| FaviconResolver.RequestsUseHttpSchemes | api/favicon.js:62-142 | The parser may keep the normalised scheme and report a host. Under that assumption, every URL the search requests is an http(s) URL. |
| Endpoints.FaviconResponse | api/favicon.js:22-40 | A buffer gives 200, with its sniffed Content-Type, a one-day Cache-Control and the buffer as the body. Null gives 404. A thrown error gives 500. The errors are JSON bodies. |
| Endpoints.SuccessCarriesTypedImage | api/favicon.js:29-35 | Every 200 from the favicon endpoint carries a valid image of at least four bytes, under one of five MIME types. That type is the one its signature names, except that a `<?xm` opening is `image/svg+xml` when the SVG sniff fires and `image/x-icon` otherwise. |
| Endpoints.LinkedPngServedAsPng | api/favicon.js:104-130 | A site with no common-path favicon whose first scraped link is a PNG gets a 200 with that PNG as `image/png`. |
| Endpoints.Handler | api/favicon.js:2-41 | OPTIONS gives 200 with an empty body. Any other method except GET gives 405. A missing or empty `url` gives 400. None of these fetches anything. Otherwise the response is `FaviconResponse` of the search outcome. The status is always 200, 400, 404, 405 or 500. |
| Endpoints.HandleFaviconRequest | worker.js:37-84 | A missing or empty `url` gives 400 without any fetch. Otherwise the response is `FaviconResponse` of the search outcome. The status is never 405. |
| Endpoints.RouteOf | worker.js:3-34 | OPTIONS is routed to the preflight before any path check. Otherwise `/` and `/index.html` are routed to the demo page, `/api/favicon` to the favicon API, and every other path to 404. |
| Endpoints.WorkerFetch | worker.js:3-35 | OPTIONS gives 200 on every path. The demo paths give `text/html`, and unknown paths give 404 `Not Found`, neither fetching anything. Every non-OPTIONS method on `/api/favicon` is handled like GET. The worker never answers 405. |

## Left out

- `server.js` (the local Express server) is not part of this model. The demo page (`HTML_CONTENT`) is a single constant body.
- Real network I/O is not modelled: request headers (`User-Agent`), the 10-second timeouts (`timeout`, `cf.timeout`), async scheduling and `Buffer` copies. `fetch` is a pure function, so the model assumes that one request sees the same response for the same URL every time. A timeout, a thrown error and a non-ok status are all the same None.
- WHATWG URL parsing is not modelled; `parse` is a parameter. `BaseUrlHasScheme` and `RequestsUseHttpSchemes` state their results under the assumption that the parser keeps the normalised scheme and reports a non-empty host.
- The regular-expression engine and `response.text()` decoding are not modelled; `linkMatches` gives the capture groups. The model still covers the empty-capture filter, `resolveUrl`, the concatenation of both patterns' results and the `Set` de-duplication.
- The captures are unconstrained strings. So the model never states what the capture group `([^"']+)` guarantees (`api/favicon.js:150-151`): a captured href contains no quote character.
- The SVG sniff works on bytes. The source first decodes the first 100 bytes: `Buffer.toString('utf8')` in the Vercel copy, `TextDecoder` in the worker. Both decoders turn every ASCII byte into the same character, and a non-ASCII sequence never decodes to an ASCII character. So `<svg` and `<?xml` occur in the decoded text exactly when their bytes occur in the buffer. This equivalence is argued, not proved.
- CORS headers are not modelled. Neither is the implicit `Content-Type` that the platform adds to `new Response('Not Found')` (`worker.js:33`), or `console.error` logging. Neither preflight response sets a Content-Type: `new Response(null, …)` has no body, and `res.status(200).end()` sets no headers. So the model gives both preflights no Content-Type.
- Vercel's query parsing is not modelled: a repeated `url` parameter arrives as an array. The model takes the parameter as an optional string, and treats an absent or empty one as missing, as `!url` does.
- Unexpected internal faults other than `Invalid URL` are not modelled. In the source they also end in the 500 branch, but nothing in the modelled code throws them.
- Invalid-URL input gets the generic 500 "Internal server error", not a 400. The model keeps this behaviour, because it is what both handlers do.

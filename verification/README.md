# Font reverse proxy, modelled in Dafny

This project models the request handler of a small reverse proxy for web fonts. The proxy serves two kinds of request:

- a **stylesheet request**: any path starting with `css2`, forwarded to `https://fonts.googleapis.com`;
- a **static request**: a font file, forwarded to `https://fonts.gstatic.com`.

For each request the handler:

1. classifies the path;
2. resolves it against the chosen base with `urljoin`;
3. appends the query string;
4. refuses the URL if it leaves the base (`is_safe_url`).

An accepted URL is then answered from a cache keyed by the exact URL. On a miss the handler:

- fetches the URL upstream, forwarding the client's headers without `Host` and with a fixed `User-Agent`;
- on a 200, rewrites every upstream base URL in a stylesheet to `https://<proxy host>`, caches the body with its content type for a day, and returns it with a one-day `Cache-Control`;
- passes any other status back unchanged and does not cache it.

Files and modules:

- `wrappers.dfy` (`Wrappers`): `Option` and `Result`.
- `text.dfy` (`Text`): the Python string operations the handler uses, over `seq<char>`:
  - `startswith` and `endswith`;
  - ASCII `lower`;
  - `split`, `join` and `replace` (all occurrences, left to right, without overlap).
- `urls.dfy` (`Urls`):
  - `urllib.parse` as in CPython 3.12. Two of its rules are recent and are modelled: a scheme starts with a letter, and blanks are stripped from the front;
  - `urlparse`, including the cleaning `urlsplit` does first: blanks (C0 controls and space) are stripped from the front, and tab, CR and LF are removed everywhere;
  - `urlunparse`;
  - `urljoin` as CPython implements it. It differs from section 5.2 of RFC 3986 in several ways, among them these three:
    - empty segments inside the merged path are dropped, so `c//d` against a base path `/b/` gives `/b/c/d` (`Urls.InnerEmptySegmentDropped`);
    - a network-path reference `//host/...` keeps its path as it is, so `//b/x/../y` against `https://a` joins to `https://b/x/../y` where RFC 3986 gives `https://b/y` (`Urls.JoinNetworkPath`);
    - a reference with another scheme is returned as it was given, neither cleaned nor resolved (`Urls.OtherSchemeSameAuthority`);
  - `is_safe_url`.
- `font_request.dfy` (`FontRequest`): the pure steps of the handler:
  - classification;
  - choice of base;
  - the target URL and its confinement;
  - the outgoing headers;
  - the stylesheet rewrite.
- `font_cache.dfy` (`FontCache`): the cache as a class with a map from URL to entry and a map from URL to lifetime, and the cache the application creates.
- `font_proxy.dfy` (`FontProxy`): the handler itself, in three layers:
  - `Handle`, a pure function of the request, the cache contents and the upstream, which specifies the handler. Its part after the URL is resolved is `Serve`;
  - the upstream server as a class: a fixed response function plus a log of the requests sent to it;
  - the imperative `ProxyFonts`, proved to behave as `Handle` says. Its first steps are factored into `ResolveRequest` and the rest into `ServeRequest`, which behaves as `Serve` says.

## Model

| member | source | states |
|---|---|---|
| FontRequest.BaseUrl | app.py:64 | The stylesheet base for a stylesheet request, the static base otherwise. `FontRequest.ParseBase` characterises both. |
| FontRequest.TargetUrl | app.py:64-70 | The base joined with the path, then `?query` when the query is not empty. `FontRequest.OrdinaryPathTarget` and `FontRequest.NetworkPathToOwnHost` characterise it. |
| FontRequest.Target | app.py:64-75 | That URL when `is_safe_url` accepts it, otherwise "Unsafe URL". `FontRequest.TargetOnUpstreamHost` and `FontRequest.NetworkPathRejected` characterise it. |
| FontRequest.Classify | app.py:36-57 | The outcome of classification, as four if-and-only-ifs. A stylesheet request is a path starting with `css2` that has a `family` argument; only presence is checked. A static request is any other path ending in one of the five font extensions, compared case-sensitively. Every other path gets the matching rejection. The re-check of the `css2` prefix never fires. |
| FontRequest.StylesheetPrefixFirst | app.py:38-44 | `css2.woff2` without `family` is refused for the missing argument, although it ends in a font extension. `css2` with `family` is a stylesheet request. |
| FontRequest.NoFontEnding | app.py:55-57 | Every font extension ends in `f`, `2` or `t`, so a path ending in anything else is not a font path. |
| FontRequest.NonFontPathsRejected | app.py:55-57 | `font.exe` and `a.TTF` are both refused as invalid font paths, whatever the arguments. |
| FontRequest.ParseBase | app.py:14-15 | `urlparse` reads each base URL as scheme `https`, the upstream host, and an empty path, query and fragment. |
| FontRequest.SafeIffUpstreamHost | app.py:17-21 | Both bases have an empty path, so against them `is_safe_url` holds exactly when the target's authority is the upstream host. |
| FontRequest.TargetOnUpstreamHost | app.py:64-75 | Every accepted target URL lies on the host of its request kind. |
| FontRequest.JoinOrdinaryPath | app.py:64-65 | `urljoin` puts an ordinary relative path after the base and a `/`. An ordinary path is not empty and does not start with a blank. Its segments are non-empty and neither `.` nor `..`. It has no `:`, `?`, `#`, `;`, tab, CR or LF. |
| FontRequest.OrdinaryPathTarget | app.py:64-75 | An ordinary path is accepted. Its target is the base, `/`, the path and `?query` when the query is not empty. |
| FontRequest.NetworkPathRejected | app.py:64-75 | A path `//host...` is refused as unsafe, with or without a query, when its host is not the kind's upstream host. This holds behind leading blanks and with tab, CR or LF anywhere in it; the host is compared after those are removed. |
| FontRequest.NetworkPathToOwnHost | app.py:64-75 | A path `//host...` whose host, once tab, CR and LF are removed, is the kind's upstream host is accepted, even behind leading blanks. It is fetched over https from that host, with the cleaned rest and the query. |
| FontRequest.OtherSchemeAccepted | app.py:64-75 | A path `scheme://<upstream host><rest>` with a valid scheme other than https, no query, and a `rest` that is empty or starts with `/`, `?` or `#`, is accepted unchanged, because schemes are not compared. |
| FontRequest.SchemeIsNotCompared | app.py:17-21 | Example: `http://fonts.gstatic.com/a.ttf` on a static request is accepted and fetched over plain http. |
| FontRequest.OutgoingHeaders | app.py:86-88 | `User-Agent` is the proxy's fixed string. No key whose lower-case form is `host` is sent. Every other inbound header is forwarded with its value, and nothing else is added. |
| FontRequest.OutgoingHeadersIdempotent | app.py:86-88 | Filtering headers that were already filtered changes nothing. |
| FontRequest.RewriteCss | app.py:94-97 | The two replacements, API base first. `FontRequest.RewriteCutsBothBases`, `FontRequest.RewriteStaticPrefixed` and `FontRequest.RewriteApiPrefixed` characterise it. |
| FontRequest.RewriteStaticPrefixed | app.py:94-97 | A stylesheet made of the static base and a tail that contains neither base becomes `https://<host>` followed by the same tail. |
| FontRequest.RewriteApiPrefixed | app.py:96-97 | A stylesheet made of the API base and a tail without it becomes `https://<host>` followed by the same tail, provided the result does not spell the static base. The second replacement runs over the proxy's address too. |
| FontRequest.RewriteCutsBothBases | app.py:96-97 | The rewrite splits the stylesheet at every API base and joins the pieces with `https://<host>`, then does the same for the static base. |
| Text.Split | app.py:96-97 | `s.split(sep)`: at least one part, the first a prefix of `s`, and no part containing `sep`. `Text.SplitCutsLeftmost` and `Text.SplitTail` fix every part. |
| Text.SplitCutsLeftmost | app.py:96-97 | The first cut is at the leftmost occurrence of `sep`. No occurrence starts inside the first part. With two or more parts, `sep` follows the first part at once; with one part, that part is all of `s`. |
| Text.SplitTail | app.py:96-97 | The parts after the first are the split of what follows the first cut and its separator. With `Text.SplitCutsLeftmost`, this fixes every part: the cuts are the leftmost occurrences, taken left to right without overlap. |
| Text.OverlappingSeparator | app.py:96-97 | A separator that overlaps itself is cut where it first occurs: `"aaa".split("aa")` is `["", "a"]`, as in Python. |
| Text.Replace | app.py:96-97 | `s.replace(p, r)`. `Text.ReplaceIsJoinOfSplit` and `Text.ReplaceAbsent` characterise it. |
| Text.ReplaceIsJoinOfSplit | app.py:96-97 | `s.replace(p, r)` equals `r.join(s.split(p))`: every occurrence, taken left to right without overlap, is replaced. |
| Text.ReplaceAbsent | app.py:96-97 | Replacing a pattern that does not occur leaves the text unchanged. |
| Text.JoinOfSplit | app.py:96-97 | `sep.join(s.split(sep)) == s`. |
| Text.AbsentBehindPrefix | app.py:96-97 | A pattern that does not occur in `t` does not occur in `a + t` either, provided it does not start `a + t` and its first character appears in `a` at most at the front. |
| Text.StartsWith | app.py:38 | `s.startswith(prefix)`. `Text.StartsWithAppended` and `Text.DiffersAtFirst` characterise it, and `FontRequest.Classify` uses it for the `css2` test. |
| Text.StartsWithAppended | app.py:38 | Text built as `prefix + t` starts with `prefix`. |
| Text.DiffersAtFirst | app.py:38 | Text whose first character is not the prefix's does not start with it. |
| Text.EndsWith | app.py:55 | `s.endswith(suffix)`. `Text.EndsWithAppended` characterises it, and `FontRequest.Classify` uses it for the five font extensions. |
| Text.EndsWithAppended | app.py:55 | Text built as `t + suffix` ends with `suffix`. |
| Text.Lower | app.py:86 | ASCII `lower()`, of the same length. `Text.LowerIdempotent` characterises it, and `FontRequest.OutgoingHeaders` uses it to drop `Host` under any spelling. |
| Text.LowerIdempotent | app.py:86 | Lower-cased text has no ASCII capital, and lower-casing it again changes nothing. |
| Urls.StripLeading | app.py:19-20 | The front stripping `urlsplit` does: a suffix of the input that is empty or starts with a non-blank character, and every character dropped is blank. |
| Urls.RemoveUnsafe | app.py:19-20 | The removal `urlsplit` does: no tab, CR or LF is left, nothing is added, and the result is no longer than the input. |
| Urls.CleanIdempotent | app.py:19-20 | Cleaning an already cleaned URL changes nothing. |
| Urls.CleanAfterPrefix | app.py:19-20 | Behind a start that is already clean, cleaning only removes tab, CR and LF from the rest. |
| Urls.Parse | app.py:19-20 | `urlparse`. `Urls.ParseAuthority`, `Urls.ParseUnparse` and `Urls.ParseNetworkPath` characterise it. |
| Urls.Unparse | app.py:65 | `urlunparse`. Its partner is `Urls.ParseUnparse`. |
| Urls.UrlJoin | app.py:65 | `urljoin`. `Urls.JoinOrdinary`, `Urls.JoinNetworkPath`, `Urls.OtherSchemeSameAuthority` and `Urls.InnerEmptySegmentDropped` characterise it. |
| Urls.IsSafeUrl | app.py:17-21 | `is_safe_url`. `Urls.SafeIffSameNetloc` characterises it against a base with an empty path. |
| Urls.InnerEmptySegmentDropped | app.py:65 | Merging `c//d` into a base path `/b/` gives `/b/c/d`: CPython drops the inner empty segment that RFC 3986 keeps. |
| Urls.ParseUnparse | app.py:19-20 | `urlparse(urlunparse(u)) == u` for every URL with a valid lower-case scheme, an authority, a rooted path free of `?` and `#`, and a query free of `#`. |
| Urls.ParseAuthority | app.py:19-20 | `scheme://netloc` followed by nothing or by a delimiter is read with that scheme, lower-cased, and that authority. Tab, CR and LF are removed from the rest before it is split. |
| Urls.SafeIffSameNetloc | app.py:17-21 | Against a base `scheme://netloc`, `is_safe_url` is exactly equality of authorities. |
| Urls.JoinPlainSegments | app.py:65 | Behind an empty first segment, segments that are not empty, "." or ".." are joined into "/" followed by the segments joined with '/'. |
| Urls.MergeOrdinaryPath | app.py:65 | Against an empty base path, `urljoin`'s path merge roots an ordinary path and changes nothing else. |
| Urls.JoinOrdinary | app.py:65 | `urljoin(scheme://netloc, path) == scheme://netloc/path` for an ordinary path. |
| Urls.SafeBelowRoot | app.py:17-21 | Below a base `scheme://netloc`, a path and a query on the same authority pass the check. |
| Urls.AppendQueryKeepsNetloc | app.py:69-70 | Appending `?query` to a URL with an authority leaves the authority that `urlparse` reads unchanged. |
| Urls.ParseNetworkPath | app.py:19-20 | `//host...`, behind any leading blanks, is read with the default scheme. Its authority is the host and the rest is what follows, both with tab, CR and LF removed. |
| Urls.JoinNetworkPath | app.py:65 | `urljoin` keeps the cleaned authority of a network-path reference `//host...` instead of the base's. |
| Urls.NetworkPathUnsafe | app.py:65-75 | Such a reference to another authority fails `is_safe_url`, with or without a query. |
| Urls.NetworkPathSameAuthority | app.py:65-75 | Such a reference to the base's own authority joins to the cleaned URL on that authority and passes `is_safe_url`, with or without a query. |
| Urls.OtherSchemeSameAuthority | app.py:17-21 | `urljoin` leaves a URL with another scheme on the base's authority unchanged, and `is_safe_url` accepts it. |
| Urls.OrdinaryTarget | app.py:64-73 | An ordinary path joined to a base `scheme://netloc`, with the query appended when it is not empty, gives `base/path?query`, and that URL is safe. |
| FontCache.Cache.constructor | app.py:12 | A new cache is empty and remembers its default lifetime. |
| FontCache.Cache.Get | app.py:78 | `cache.get(url)` finds exactly the stored entries and returns what was stored. |
| FontCache.NewCache | app.py:12 | The application's cache starts empty, with a default lifetime of five minutes. |
| FontCache.StoredHasLifetime | app.py:103 | Every URL the cache holds has the lifetime it was stored with, and only stored URLs have one. |
| FontCache.Cache.Set | app.py:103 | `cache.set(url, entry, timeout)` stores or replaces that one entry and its lifetime, and keeps every other entry. |
| FontProxy.HeaderOf | app.py:103 | `response.headers.get(name)`. `FontProxy.HeaderOfIgnoresCase` characterises it. |
| FontProxy.HeaderOfIgnoresCase | app.py:103 | The lookup finds a value exactly when some header's name equals `name` ignoring case, and it returns that header's value. Upstream header names are stored lower-cased, as the HTTP client's dictionary stores them. |
| FontRequest.Message | app.py:43-75 | The three rejection texts: "Missing 'family' parameter" (line 44), "Invalid font path" (lines 49 and 57) and "Unsafe URL" (line 75). `FontProxy.RejectionHasNoEffect` and `FontRequest.Classify` characterise it. |
| FontProxy.Reject | app.py:43-75 | A rejection is a 400 carrying its message and no content type or other header. `FontProxy.RejectionHasNoEffect` characterises it. |
| FontProxy.FromCache | app.py:79-82 | A cache hit is answered 200 with the stored body and content type and no other header. `FontProxy.CacheHitServesStored` characterises it. |
| FontProxy.Fresh | app.py:105-111 | The 200 answer to a successful fetch. `FontProxy.FreshHeaders` characterises it. |
| FontProxy.PassThrough | app.py:113 | A non-200 answer is passed back with its own status, body and content type. `FontProxy.ServeStoresOnlySuccess` characterises it. |
| FontProxy.Body | app.py:92-100 | A stylesheet body is rewritten and a font body is not. `FontProxy.OnlySuccessStored` characterises it. |
| FontProxy.Resolve | app.py:36-75 | The kind and target URL, or the rejection. `FontProxy.ResolveRequest` characterises it. |
| FontProxy.Handle | app.py:28-113 | The handler's answer, the entry it stores and the request it sends. `FontProxy.ProxyFonts` and the lemmas below characterise it. |
| FontProxy.Serve | app.py:77-113 | The part of the handler after the URL is resolved. `FontProxy.ServeRequest` and `FontProxy.ServeStoresOnlySuccess` characterise it. |
| FontProxy.Upstream.constructor | app.py:89 | The upstream answers with the given response function and has not been called yet. |
| FontProxy.FreshHeaders | app.py:106-111 | A fresh 200 carries exactly three headers: `Cache-Control: public, max-age=86400`, the upstream's `Expires` and the `Content-Type`. |
| FontProxy.Upstream.Get | app.py:89 | `requests.get` returns the upstream's answer to that request and logs the request. |
| FontProxy.ResolveRequest | app.py:36-75 | The classification and URL steps, one at a time, produce what `Resolve` specifies: the kind and target URL, or the rejection. |
| FontProxy.ResolvedIsServed | app.py:72-78 | Once a request resolves to a kind and URL, the handler does what `Serve` says for them. |
| FontProxy.ServeRequest | app.py:77-113 | Answering from the cache or fetching produces `Serve`'s response. It stores exactly `Serve`'s entry, for a day, and calls upstream once exactly when `Serve` fetches. |
| FontProxy.ProxyFonts | app.py:28-113 | The whole handler produces `Handle`'s response. It stores exactly `Handle`'s entry, for a day, and calls upstream once exactly when `Handle` fetches. Otherwise the cache and the call log are unchanged. |
| FontProxy.RejectionHasNoEffect | app.py:43-75 | A rejected request gets status 400 with its message. Nothing is read from the cache, stored or fetched. |
| FontProxy.MissingFamilyRejected | app.py:43-44 | A `css2` path without `family` gets 400 "Missing 'family' parameter", with no cache access and no fetch. |
| FontProxy.InvalidFontPathRejected | app.py:55-57 | Any other path without a font extension gets 400 "Invalid font path", with no cache access and no fetch. |
| FontProxy.ExecutableRejected | app.py:55-57 | A request for `font.exe` gets 400 "Invalid font path". |
| FontProxy.OtherHostRejected | app.py:73-75 | A static path `//otherhost/...` gets 400 "Unsafe URL" and nothing is fetched. This holds behind leading blanks and with tab, CR or LF in it. |
| FontProxy.CacheHitServesStored | app.py:78-82 | A cached URL is answered with status 200 and the stored body and content type, with no other header. Nothing is fetched and nothing is stored. |
| FontProxy.MissFetchesFromUpstreamHost | app.py:84-89 | On a miss, exactly one request goes upstream: to the target URL, which lies on the kind's host, with the filtered headers. |
| FontProxy.FetchStaysUpstream | app.py:64-89 | The request the handler sends goes to `fonts.googleapis.com` or `fonts.gstatic.com`. Redirects that the HTTP client then follows are not modelled. |
| FontProxy.ServeStoresOnlySuccess | app.py:77-113 | Once a request is resolved to a URL, an entry is stored exactly when the upstream answered 200. It is stored under that URL and holds the body and content type served, and the answer carries the day-long Cache-Control and the upstream's Expires. A non-200 answer is passed back unchanged and nothing is stored. |
| FontProxy.OnlySuccessStored | app.py:92-113 | An entry is stored exactly when the upstream answered 200, under the fetched URL, holding the body and content type served. A stylesheet body is rewritten and a font body is not. A non-200 answer is passed back with its own status, body and content type, and nothing is stored. |
| FontProxy.RepeatedRequestHitsCache | app.py:78-103 | Asking again after a stored answer gives a cache hit with the same body and content type and no fetch. A request that fetched nothing is answered the same way again. |
| FontProxy.RobotoStylesheet | app.py:38-111 | `/css2?family=Roboto` on a miss is fetched from `https://fonts.googleapis.com/css2?family=Roboto`. When the upstream body is exactly `https://fonts.gstatic.com/s/roboto.woff2`, the proxy serves, and stores under that URL, exactly `https://<host>/s/roboto.woff2`. |

## Left out

- Flask routing, the `before_request` logging hook, all logging, and `app.run` with TLS. The inbound request is a record of the routed path, the argument names, the raw query string, the headers and the host.
- Network I/O of `requests.get`. The upstream is a fixed function from the outgoing request to (status, body, headers). Transport errors are not modelled: the source does not handle them either.
- Schemes that `requests.get` cannot fetch. `FontRequest.OtherSchemeAccepted` lets any scheme through on the upstream host, for example `ftp://fonts.gstatic.com/a.ttf`. For a scheme other than http and https, `requests.get` raises, and the client gets a server error. The model's upstream answers every URL.
- The file-system persistence and wall-clock expiry of `FileSystemCache`. The cache is a map that keeps what is stored. Each entry's lifetime (`FETCHED_TIMEOUT`, a day) and the cache's default (`DEFAULT_TIMEOUT`, five minutes) are recorded but never expire anything.
- FontCache.Cache.Set: "keeps every other entry" is the model's choice. The real cache expires an entry after its lifetime. Once it holds more than 500 files, it also prunes: expired entries go, and every third file with them. A stored answer can therefore be missing later, and `RepeatedRequestHitsCache` holds only while the entry survives.
- UTF-8 decoding and encoding of stylesheet bodies. Text and bytes are the same sequence of characters.
- The UTF-8 decoding of the query string (app.py:68). The model takes the query as text. A query that is not valid UTF-8 makes the source raise, and the client gets a server error; the model has no such case.
- Redirects. `requests.get` follows them by default, so the final answer may come from another host. The model's upstream answers the one request sent, and `FetchStaysUpstream` is about that request only.
- Concurrency between requests. Each call of `ProxyFonts` runs alone.
- The `reqtype == None` branch (app.py:59-61) can never be reached, because classification always sets a kind; it has no counterpart in the model.
- Urls.UrlJoin: does not model `urlparse`'s `;params`. CPython cuts `;...` off the last path segment of both URLs before joining, and `urlunparse` puts it back only when it is non-empty. The model leaves `;...` in the path. The results differ in two cases. First, a `.` or `..` segment before the `;`: `a/..;x` joins to `/;x` in CPython and to `/a/..;x` in the model. Second, an empty `;` at the end of the last segment, which CPython drops: the path `css2;` with the query `family=x` is fetched, and cached, as `https://fonts.googleapis.com/css2?family=x` by the application and as `https://fonts.googleapis.com/css2;?family=x` in the model. `is_safe_url` against these bases reads only the authority, so confinement is not affected. The lemmas about ordinary paths exclude `;`.
- Urls.JoinNetworkPath: for the same reason, keeps an empty `;` at the end of the reference's path, which CPython drops: `//b/x;` against `https://a` gives `https://b/x;` in the model and `https://b/x` in CPython.
- FontRequest.NetworkPathToOwnHost: likewise, a rest ending in an empty `;` keeps it in the fetched URL in the model, while the application fetches without it.
- `urlsplit`'s validation of the authority. An unbalanced `[` or `]` makes it raise, and the client gets a server error. The model reads the authority as it is.
- Upstream header names are keys of a `HeaderDict`, a map whose keys are lower-case. The HTTP client's dictionary also keeps each name's original spelling; the handler only looks names up, so that spelling is not modelled. Inbound header names are compared with `Lower` exactly as the source compares them.
- Flask's defaults for a response without an explicit content type, and the treatment of a header whose value is `None`. The model carries such values as `None`.

## Notes on the source

- Classification checks only that the `family` argument is present; an empty value is accepted (app.py:43).
- `is_safe_url` compares authorities and paths, not schemes (app.py:21). `http://fonts.gstatic.com/...` on a static request is therefore accepted and fetched over plain http (`FontRequest.SchemeIsNotCompared`).
- A cache hit is answered without `Cache-Control` or `Expires` (app.py:82). Only a fresh 200 carries them (app.py:106-111).
- The stored lifetime is `24 * 60 * 60` seconds, a day; the comment next to it says five hours (app.py:103). The model follows the code.

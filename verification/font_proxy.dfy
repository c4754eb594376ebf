/**
 * The request handler `proxy_fonts`: classify the path, build and confine
 * the upstream URL, answer from the cache when it can, and otherwise fetch
 * upstream, rewrite a stylesheet, cache a successful answer and return it.
 *
 * The upstream server is an oracle: a fixed function from the request sent
 * to the response received, with a log of the requests sent to it.
 */
module FontProxy {
  import opened Wrappers
  import opened Text
  import opened Urls
  import opened FontRequest
  import opened FontCache

  /** What the handler reads from the inbound request. */
  datatype Request = Request(
    path: string,                  // the routed path, after the leading '/'
    argNames: set<string>,         // the names of the query arguments
    queryString: string,           // the raw query string, without '?'
    headers: map<string, string>,  // the inbound headers
    host: string)                  // the Host the client addressed

  /** A request sent upstream. */
  datatype Outgoing = Outgoing(url: string, headers: map<string, string>)

  /**
   * Response headers as the HTTP client's case-insensitive dictionary keeps
   * them: under the lower-cased name, which is the name a lookup compares.
   */
  type HeaderDict = m: map<string, string> | forall k :: k in m ==> Lower(k) == k

  /** A response from upstream. */
  datatype UpstreamResponse = UpstreamResponse(status: int, content: string, headers: HeaderDict)

  /** The response sent back; a header whose value is absent is `None`. */
  datatype Response = Response(status: int, body: string, contentType: Option<string>, headers: map<string, Option<string>>)

  const CACHE_CONTROL := "public, max-age=86400"

  /** `response.headers.get(name)`, looked up under the lower-cased name. */
  function HeaderOf(headers: HeaderDict, name: string): Option<string>
  {
    if Lower(name) in headers then Some(headers[Lower(name)]) else None
  }

  /** The lookup finds a header exactly when one has `name` for its name but for case, and answers its value. */
  lemma HeaderOfIgnoresCase(headers: HeaderDict, name: string)
    ensures HeaderOf(headers, name).Some? <==> exists k :: k in headers && Lower(k) == Lower(name)
    ensures forall k :: k in headers && Lower(k) == Lower(name) ==> HeaderOf(headers, name) == Some(headers[k])
  {
    if Lower(name) in headers {
      var k := Lower(name);
      assert Lower(k) == k;
    }
  }

  /** The 400 answer to a rejected request. */
  function Reject(why: Rejection): Response
  {
    Response(400, Message(why), None, map[])
  }

  /** The answer from a cache hit: the stored body and content type, status 200, no other header. */
  function FromCache(e: Entry): Response
  {
    Response(200, e.content, e.contentType, map[])
  }

  /** The answer to a fresh upstream 200, marked cacheable for a day. */
  function Fresh(e: Entry, expires: Option<string>): Response
  {
    Response(200, e.content, e.contentType,
      map["Cache-Control" := Some(CACHE_CONTROL), "Expires" := expires, "Content-Type" := e.contentType])
  }

  /** A fresh answer carries the day-long Cache-Control, the upstream's Expires and the entry's Content-Type. */
  lemma FreshHeaders(e: Entry, expires: Option<string>)
    ensures Fresh(e, expires).headers.Keys == {"Cache-Control", "Expires", "Content-Type"}
    ensures Fresh(e, expires).headers["Cache-Control"] == Some("public, max-age=86400")
    ensures Fresh(e, expires).headers["Expires"] == expires
    ensures Fresh(e, expires).headers["Content-Type"] == e.contentType
  {
    assert "Cache-Control"[0] != "Expires"[0] && "Expires"[0] != "Content-Type"[0];
    assert "Cache-Control"[1] != "Content-Type"[1];
  }

  /** Any other upstream answer, passed back as it came. */
  function PassThrough(r: UpstreamResponse): Response
  {
    Response(r.status, r.content, HeaderOf(r.headers, "Content-Type"), map[])
  }

  /** The body served for an upstream 200: a stylesheet is rewritten, a font file is not. */
  function Body(kind: Kind, content: string, host: string): string
  {
    if kind == Css2 then RewriteCss(content, host) else content
  }

  /** What handling one request does: the answer, the entry stored, and the request sent upstream. */
  datatype Outcome = Outcome(response: Response, store: Option<(string, Entry)>, fetched: Option<Outgoing>)

  function Stored(entries: map<string, Entry>, store: Option<(string, Entry)>): map<string, Entry>
  {
    if store.Some? then entries[store.value.0 := store.value.1] else entries
  }

  function Fetches(fetched: Option<Outgoing>): seq<Outgoing>
  {
    if fetched.Some? then [fetched.value] else []
  }

  /** The kind of an accepted request and its upstream URL, or why it is rejected. */
  function Resolve(req: Request): Result<(Kind, string), Rejection>
  {
    match Classify(req.path, req.argNames)
    case Err(why) => Err(why)
    case Ok(kind) =>
      match Target(kind, req.path, req.queryString)
      case Err(why) => Err(why)
      case Ok(url) => Ok((kind, url))
  }

  /** The handler as a function of the request, the cache contents and the upstream. */
  function Handle(req: Request, entries: map<string, Entry>, respond: Outgoing -> UpstreamResponse): Outcome
  {
    match Resolve(req)
    case Err(why) => Outcome(Reject(why), None, None)
    case Ok((kind, url)) => Serve(req, kind, url, entries, respond)
  }

  /** What the handler does once the request is resolved to `url`: serve from the cache or fetch. */
  function Serve(req: Request, kind: Kind, url: string, entries: map<string, Entry>,
                 respond: Outgoing -> UpstreamResponse): Outcome
  {
    if url in entries then Outcome(FromCache(entries[url]), None, None)
    else
      var out := Outgoing(url, OutgoingHeaders(req.headers));
      var r := respond(out);
      if r.status == 200 then
        var e := Entry(Body(kind, r.content, req.host), HeaderOf(r.headers, "Content-Type"));
        Outcome(Fresh(e, HeaderOf(r.headers, "Expires")), Some((url, e)), Some(out))
      else
        Outcome(PassThrough(r), None, Some(out))
  }

  /** The upstream server: answers by `respond` and logs every request sent. */
  class Upstream {
    const respond: Outgoing -> UpstreamResponse
    var calls: seq<Outgoing>

    constructor (respond: Outgoing -> UpstreamResponse)
      ensures this.respond == respond && calls == []
    {
      this.respond := respond;
      calls := [];
    }

    /** `requests.get(url, headers=headers)` */
    method Get(req: Outgoing) returns (r: UpstreamResponse)
      modifies this
      ensures r == respond(req)
      ensures calls == old(calls) + [req]
    {
      r := respond(req);
      calls := calls + [req];
    }
  }

  /**
   * The first steps of `proxy_fonts`: classify the path, resolve it against
   * the kind's base, append the query and confine the result to the base.
   */
  method ResolveRequest(req: Request) returns (r: Result<(Kind, string), Rejection>)
    ensures r == Resolve(req)
  {
    var kind: Kind;
    if StartsWith(req.path, "css2") {
      kind := Css2;
      if "family" !in req.argNames {
        return Err(MissingFamily);
      }
      if !StartsWith(req.path, "css2") {
        return Err(InvalidFontPath);
      }
    } else {
      kind := Static;
      if !EndsWith(req.path, ".ttf") && !EndsWith(req.path, ".woff2") && !EndsWith(req.path, ".woff")
         && !EndsWith(req.path, ".eot") && !EndsWith(req.path, ".otf")
      {
        return Err(InvalidFontPath);
      }
    }
    assert Classify(req.path, req.argNames) == Ok(kind);

    var baseUrl := if kind == Css2 then API_BASE else STATIC_BASE;
    var url := UrlJoin(baseUrl, req.path);
    if req.queryString != "" {
      url := url + "?" + req.queryString;
    }
    if !IsSafeUrl(baseUrl, url) {
      return Err(UnsafeUrl);
    }
    return Ok((kind, url));
  }

  /**
   * `proxy_fonts`, step by step: it answers as `Handle` says, stores what
   * `Handle` stores for a day, and calls upstream exactly when `Handle` fetches.
   */
  method ProxyFonts(cache: Cache, upstream: Upstream, req: Request) returns (resp: Response)
    requires cache.Valid()
    modifies cache, upstream
    ensures cache.Valid()
    ensures var o := Handle(req, old(cache.entries), upstream.respond);
            && resp == o.response
            && cache.entries == Stored(old(cache.entries), o.store)
            && cache.timeouts == (if o.store.Some? then old(cache.timeouts)[o.store.value.0 := FETCHED_TIMEOUT]
                                  else old(cache.timeouts))
            && upstream.calls == old(upstream.calls) + Fetches(o.fetched)
  {
    var resolved := ResolveRequest(req);
    if resolved.Err? {
      RejectionHasNoEffect(req, cache.entries, upstream.respond);
      return Reject(resolved.error);
    }
    var (kind, url) := resolved.value;
    ResolvedIsServed(req, kind, url, cache.entries, upstream.respond);
    resp := ServeRequest(cache, upstream, req, kind, url);
  }

  lemma ResolvedIsServed(req: Request, kind: Kind, url: string, entries: map<string, Entry>,
                         respond: Outgoing -> UpstreamResponse)
    requires Resolve(req) == Ok((kind, url))
    ensures Handle(req, entries, respond) == Serve(req, kind, url, entries, respond)
  {
  }

  /**
   * The rest of `proxy_fonts` once the request is resolved to `url`: answer
   * from the cache, or fetch, rewrite a stylesheet, store a success and
   * answer it, as `Serve` says.
   */
  method ServeRequest(cache: Cache, upstream: Upstream, req: Request, kind: Kind, url: string) returns (resp: Response)
    requires cache.Valid()
    modifies cache, upstream
    ensures cache.Valid()
    ensures var o := Serve(req, kind, url, old(cache.entries), upstream.respond);
            && resp == o.response
            && cache.entries == Stored(old(cache.entries), o.store)
            && cache.timeouts == (if o.store.Some? then old(cache.timeouts)[o.store.value.0 := FETCHED_TIMEOUT]
                                  else old(cache.timeouts))
            && upstream.calls == old(upstream.calls) + Fetches(o.fetched)
  {
    var cached := cache.Get(url);
    if cached.Some? {
      return FromCache(cached.value);
    }

    var headers := map k | k in req.headers && Lower(k) != "host" :: req.headers[k];
    headers := headers[USER_AGENT_HEADER := PROXY_USER_AGENT];
    assert headers == OutgoingHeaders(req.headers);
    var response := upstream.Get(Outgoing(url, headers));

    if response.status == 200 {
      var content: string;
      if kind == Css2 {
        var css := response.content;
        css := Replace(css, API_BASE, "https://" + req.host);
        css := Replace(css, STATIC_BASE, "https://" + req.host);
        content := css;
        assert content == RewriteCss(response.content, req.host);
      } else {
        content := response.content;
      }
      var entry := Entry(content, HeaderOf(response.headers, "Content-Type"));
      cache.Set(url, entry, FETCHED_TIMEOUT);
      return Fresh(entry, HeaderOf(response.headers, "Expires"));
    }
    return PassThrough(response);
  }

  /** A rejected request is answered with its message and status 400; nothing is read, stored or fetched. */
  lemma RejectionHasNoEffect(req: Request, entries: map<string, Entry>, respond: Outgoing -> UpstreamResponse)
    requires Resolve(req).Err?
    ensures Handle(req, entries, respond) == Outcome(Response(400, Message(Resolve(req).error), None, map[]), None, None)
  {
  }

  /** A stylesheet request without a `family` argument is refused before the cache is read or anything fetched. */
  lemma MissingFamilyRejected(req: Request, entries: map<string, Entry>, respond: Outgoing -> UpstreamResponse)
    requires StartsWith(req.path, "css2") && "family" !in req.argNames
    ensures Handle(req, entries, respond) == Outcome(Response(400, "Missing 'family' parameter", None, map[]), None, None)
  {
  }

  /** A static request for a path without a font extension is refused before the cache is read or anything fetched. */
  lemma InvalidFontPathRejected(req: Request, entries: map<string, Entry>, respond: Outgoing -> UpstreamResponse)
    requires !StartsWith(req.path, "css2") && !HasFontExtension(req.path)
    ensures Handle(req, entries, respond) == Outcome(Response(400, "Invalid font path", None, map[]), None, None)
  {
  }

  /**
   * A static font path written as a network-path reference to a host other
   * than the static host is refused as unsafe, and nothing is fetched.
   */
  lemma OtherHostRejected(req: Request, blank: string, host: string, rest: string, entries: map<string, Entry>,
                          respond: Outgoing -> UpstreamResponse)
    requires req.path == blank + "//" + host + rest && HasFontExtension(req.path)
    requires Blank(blank) && NoneIn(host, NETLOC_DELIMS)
    requires RemoveUnsafe(host) != "" && RemoveUnsafe(host) != STATIC_HOST
    requires rest == "" || rest[0] in NETLOC_DELIMS
    ensures Handle(req, entries, respond) == Outcome(Response(400, "Unsafe URL", None, map[]), None, None)
  {
    OtherHostUnresolved(req, blank, host, rest);
    UnsafeHasNoEffect(req, entries, respond);
  }

  lemma UnsafeHasNoEffect(req: Request, entries: map<string, Entry>, respond: Outgoing -> UpstreamResponse)
    requires Resolve(req) == Err(UnsafeUrl)
    ensures Handle(req, entries, respond) == Outcome(Response(400, "Unsafe URL", None, map[]), None, None)
  {
    RejectionHasNoEffect(req, entries, respond);
  }

  lemma OtherHostUnresolved(req: Request, blank: string, host: string, rest: string)
    requires req.path == blank + "//" + host + rest && HasFontExtension(req.path)
    requires Blank(blank) && NoneIn(host, NETLOC_DELIMS)
    requires RemoveUnsafe(host) != "" && RemoveUnsafe(host) != STATIC_HOST
    requires rest == "" || rest[0] in NETLOC_DELIMS
    ensures Resolve(req) == Err(UnsafeUrl)
  {
    assert req.path[0] != 'c' by {
      if blank == "" {
        assert req.path[0] == '/';
      } else {
        assert req.path[0] == blank[0] && IsC0OrSpace(blank[0]);
      }
    }
    DiffersAtFirst(req.path, "css2");
    assert Classify(req.path, req.argNames) == Ok(Static);
    NetworkPathRejected(Static, blank, host, rest, req.queryString);
  }

  /** A cached URL is answered with the stored body and content type, without a fetch and without a change to the cache. */
  lemma CacheHitServesStored(req: Request, entries: map<string, Entry>, respond: Outgoing -> UpstreamResponse)
    requires Resolve(req).Ok? && Resolve(req).value.1 in entries
    ensures var e := entries[Resolve(req).value.1];
            Handle(req, entries, respond) == Outcome(Response(200, e.content, e.contentType, map[]), None, None)
  {
  }

  /**
   * On a miss, exactly one request goes upstream: to the resolved URL, which
   * lies on the host of the request's kind, with the inbound headers except
   * Host and with the proxy's User-Agent.
   */
  lemma MissFetchesFromUpstreamHost(req: Request, entries: map<string, Entry>, respond: Outgoing -> UpstreamResponse)
    requires Resolve(req).Ok? && Resolve(req).value.1 !in entries
    ensures var (kind, url) := Resolve(req).value;
            var o := Handle(req, entries, respond);
            && o.fetched == Some(Outgoing(url, OutgoingHeaders(req.headers)))
            && Parse(url, "").netloc == Host(kind)
  {
    var kind := Classify(req.path, req.argNames).value;
    TargetOnUpstreamHost(kind, req.path, req.queryString);
  }

  /** Whatever is fetched is fetched from one of the two upstream hosts. */
  lemma FetchStaysUpstream(req: Request, entries: map<string, Entry>, respond: Outgoing -> UpstreamResponse)
    ensures var o := Handle(req, entries, respond);
            o.fetched.Some? ==> Parse(o.fetched.value.url, "").netloc in {API_HOST, STATIC_HOST}
  {
    if Resolve(req).Ok? && Resolve(req).value.1 !in entries {
      MissFetchesFromUpstreamHost(req, entries, respond);
    }
  }

  /** Once a request is resolved, only an upstream 200 is stored, with the body and content type served. */
  lemma ServeStoresOnlySuccess(req: Request, kind: Kind, url: string, entries: map<string, Entry>,
                               respond: Outgoing -> UpstreamResponse)
    ensures var o := Serve(req, kind, url, entries, respond);
            && (o.store.Some? <==> o.fetched.Some? && respond(o.fetched.value).status == 200)
            && (o.store.Some? ==>
                  var r := respond(o.fetched.value);
                  && o.store.value.0 == o.fetched.value.url == url
                  && o.store.value.1 == Entry(o.response.body, o.response.contentType)
                  && o.response.body == (if kind == Css2 then RewriteCss(r.content, req.host) else r.content)
                  && o.response.contentType == HeaderOf(r.headers, "Content-Type")
                  && "Cache-Control" in o.response.headers
                  && o.response.headers["Cache-Control"] == Some("public, max-age=86400")
                  && "Expires" in o.response.headers
                  && o.response.headers["Expires"] == HeaderOf(r.headers, "Expires"))
            && (o.fetched.Some? && o.store.None? ==>
                  var r := respond(o.fetched.value);
                  o.response == Response(r.status, r.content, HeaderOf(r.headers, "Content-Type"), map[]))
  {
    if url !in entries {
      var r := respond(Outgoing(url, OutgoingHeaders(req.headers)));
      FreshHeaders(Entry(Body(kind, r.content, req.host), HeaderOf(r.headers, "Content-Type")), HeaderOf(r.headers, "Expires"));
    }
  }

  /**
   * Only an upstream 200 is stored, under the URL fetched and with the body
   * and content type served; a stylesheet body is rewritten to the proxy's
   * host and a font body is passed as it came. Any other status is passed
   * back with its own body and content type, and nothing is stored.
   */
  lemma OnlySuccessStored(req: Request, entries: map<string, Entry>, respond: Outgoing -> UpstreamResponse)
    ensures var o := Handle(req, entries, respond);
            && (o.store.Some? <==> o.fetched.Some? && respond(o.fetched.value).status == 200)
            && (o.store.Some? ==>
                  var r := respond(o.fetched.value);
                  var kind := Resolve(req).value.0;
                  && o.store.value.0 == o.fetched.value.url
                  && o.store.value.1 == Entry(o.response.body, o.response.contentType)
                  && o.response.body == (if kind == Css2 then RewriteCss(r.content, req.host) else r.content)
                  && o.response.contentType == HeaderOf(r.headers, "Content-Type")
                  && "Cache-Control" in o.response.headers
                  && o.response.headers["Cache-Control"] == Some("public, max-age=86400")
                  && "Expires" in o.response.headers
                  && o.response.headers["Expires"] == HeaderOf(r.headers, "Expires"))
            && (o.fetched.Some? && o.store.None? ==>
                  var r := respond(o.fetched.value);
                  o.response == Response(r.status, r.content, HeaderOf(r.headers, "Content-Type"), map[]))
  {
    var resolved := Resolve(req);
    if resolved.Ok? {
      var (kind, url) := resolved.value;
      assert Handle(req, entries, respond) == Serve(req, kind, url, entries, respond);
      ServeStoresOnlySuccess(req, kind, url, entries, respond);
    }
  }

  /** Classifying and confining a request does not depend on the cache, so a stored answer is found next time. */
  lemma RepeatedRequestHitsCache(req: Request, entries: map<string, Entry>,
                                  respond: Outgoing -> UpstreamResponse)
    ensures var first := Handle(req, entries, respond);
            var second := Handle(req, Stored(entries, first.store), respond);
            && (first.store.Some? ==>
                  second == Outcome(Response(200, first.response.body, first.response.contentType, map[]), None, None))
            && (first.fetched.None? ==> second == first)
  {
    var first := Handle(req, entries, respond);
    if first.store.Some? {
      var url := Resolve(req).value.1;
      assert url in Stored(entries, first.store);
      CacheHitServesStored(req, Stored(entries, first.store), respond);
    }
  }

  /** A request for "font.exe" is refused as an invalid font path, whatever its arguments. */
  lemma ExecutableRejected(req: Request, entries: map<string, Entry>, respond: Outgoing -> UpstreamResponse)
    requires req.path == "font.exe"
    ensures Handle(req, entries, respond) == Outcome(Response(400, "Invalid font path", None, map[]), None, None)
  {
    NonFontPathsRejected(req.argNames);
    RejectionHasNoEffect(req, entries, respond);
  }

  lemma RobotoUrl()
    ensures API_BASE + "/" + "css2" + Marked('?', "family=Roboto") == API_BASE + "/css2?family=Roboto"
  {
    assert Marked('?', "family=Roboto") == "?family=Roboto";
  }

  lemma RobotoTailPlain()
    ensures !Occurs("/s/roboto.woff2", API_BASE) && !Occurs("/s/roboto.woff2", STATIC_BASE)
  {
    AbsentFirstChar("/s/roboto.woff2", API_BASE);
    AbsentFirstChar("/s/roboto.woff2", STATIC_BASE);
  }

  /** `/css2?family=Roboto` is a stylesheet request for `https://fonts.googleapis.com/css2?family=Roboto`. */
  lemma RobotoResolved(req: Request)
    requires req.path == "css2" && req.argNames == {"family"} && req.queryString == "family=Roboto"
    ensures Resolve(req) == Ok((Css2, API_BASE + "/css2?family=Roboto"))
  {
    RobotoTarget();
    RobotoClassified();
  }

  lemma RobotoClassified()
    ensures Classify("css2", {"family"}) == Ok(Css2)
  {
  }

  lemma RobotoTarget()
    ensures Target(Css2, "css2", "family=Roboto") == Ok(API_BASE + "/css2?family=Roboto")
  {
    RobotoPathOrdinary();
    OrdinaryPathTarget(Css2, "css2", "family=Roboto");
    RobotoUrl();
  }

  lemma RobotoPathOrdinary()
    ensures OrdinaryPath("css2")
  {
    PlainWordOrdinary("css2");
  }

  /**
   * `/css2?family=Roboto` on a miss: the stylesheet is fetched from
   * `https://fonts.googleapis.com/css2?family=Roboto`, and a font URL on the
   * static host in it is served, and stored, pointing at the proxy's host.
   */
  lemma RobotoStylesheet(req: Request, entries: map<string, Entry>, respond: Outgoing -> UpstreamResponse)
    requires req.path == "css2" && req.argNames == {"family"} && req.queryString == "family=Roboto"
    requires API_BASE + "/css2?family=Roboto" !in entries
    requires var r := respond(Outgoing(API_BASE + "/css2?family=Roboto", OutgoingHeaders(req.headers)));
             r.status == 200 && r.content == STATIC_BASE + "/s/roboto.woff2" && r.headers == map["content-type" := "text/css"]
    ensures var o := Handle(req, entries, respond);
            var served := Entry("https://" + req.host + "/s/roboto.woff2", Some("text/css"));
            && o.fetched == Some(Outgoing(API_BASE + "/css2?family=Roboto", OutgoingHeaders(req.headers)))
            && o.store == Some((API_BASE + "/css2?family=Roboto", served))
            && o.response.status == 200
            && o.response.body == served.content
  {
    var url := API_BASE + "/css2?family=Roboto";
    RobotoResolved(req);
    ResolvedIsServed(req, Css2, url, entries, respond);
    RobotoServed(req, url, entries, respond);
  }

  lemma RobotoServed(req: Request, url: string, entries: map<string, Entry>, respond: Outgoing -> UpstreamResponse)
    requires url !in entries
    requires var r := respond(Outgoing(url, OutgoingHeaders(req.headers)));
             r.status == 200 && r.content == STATIC_BASE + "/s/roboto.woff2" && r.headers == map["content-type" := "text/css"]
    ensures var o := Serve(req, Css2, url, entries, respond);
            var served := Entry("https://" + req.host + "/s/roboto.woff2", Some("text/css"));
            && o.fetched == Some(Outgoing(url, OutgoingHeaders(req.headers)))
            && o.store == Some((url, served))
            && o.response.status == 200
            && o.response.body == served.content
  {
    var tail := "/s/roboto.woff2";
    RobotoTailPlain();
    RewriteStaticPrefixed(tail, req.host);
    ContentTypeName();
  }

  lemma ContentTypeName()
    ensures Lower("Content-Type") == "content-type"
  {
    assert forall i :: 0 <= i < 12 ==> Lower("Content-Type")[i] == "content-type"[i];
  }
}

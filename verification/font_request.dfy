/**
 * The pure steps of the font proxy's request handler: classifying the
 * requested path, building and confining the upstream URL, building the
 * outgoing headers and rewriting a stylesheet so that its font URLs point at
 * the proxy.
 */
module FontRequest {
  import opened Wrappers
  import opened Text
  import opened Urls

  /** The hosts of the stylesheet API and of the static font files. */
  const API_HOST := "fonts.googleapis.com"
  const STATIC_HOST := "fonts.gstatic.com"

  /** The two upstream base URLs, "https://fonts.googleapis.com" and "https://fonts.gstatic.com". */
  const API_BASE := "https://" + API_HOST
  const STATIC_BASE := "https://" + STATIC_HOST

  /** The User-Agent sent upstream whatever the client sent. */
  const USER_AGENT_HEADER := "User-Agent"
  const PROXY_USER_AGENT :=
    "Mozilla/5.0 (Windows NT 10.0; Win64; x64) WWFF Font Proxy/1.0 (github.com/darkflib/wwff-font-proxy)"

  /** The file endings of a static font request, compared case-sensitively. */
  const FONT_EXTENSIONS: seq<string> := [".ttf", ".woff2", ".woff", ".eot", ".otf"]

  /** The kind of a request: the stylesheet API ("css2") or a static font file. */
  datatype Kind = Css2 | Static

  /** Why a request is answered with 400 before anything is fetched. */
  datatype Rejection = MissingFamily | InvalidFontPath | UnsafeUrl

  function Message(r: Rejection): string
  {
    match r
    case MissingFamily => "Missing 'family' parameter"
    case InvalidFontPath => "Invalid font path"
    case UnsafeUrl => "Unsafe URL"
  }

  ghost predicate HasFontExtension(path: string)
  {
    exists e :: e in FONT_EXTENSIONS && EndsWith(path, e)
  }

  /**
   * A path starting with "css2" is a stylesheet request and needs a `family`
   * argument (present, whatever its value); any other path is a static
   * request and must end in a font extension. The second prefix test on the
   * stylesheet branch is the source's and can never fail.
   */
  function Classify(path: string, argNames: set<string>): (r: Result<Kind, Rejection>)
    ensures r == Ok(Css2) <==> StartsWith(path, "css2") && "family" in argNames
    ensures r == Err(MissingFamily) <==> StartsWith(path, "css2") && "family" !in argNames
    ensures r == Ok(Static) <==> !StartsWith(path, "css2") && HasFontExtension(path)
    ensures r == Err(InvalidFontPath) <==> !StartsWith(path, "css2") && !HasFontExtension(path)
  {
    if StartsWith(path, "css2") then
      if "family" !in argNames then Err(MissingFamily)
      else if !StartsWith(path, "css2") then Err(InvalidFontPath)
      else Ok(Css2)
    else
      if !EndsWith(path, ".ttf") && !EndsWith(path, ".woff2") && !EndsWith(path, ".woff")
         && !EndsWith(path, ".eot") && !EndsWith(path, ".otf")
      then
        Err(InvalidFontPath)
      else
        assert EndsWith(path, FONT_EXTENSIONS[0]) || EndsWith(path, FONT_EXTENSIONS[1])
          || EndsWith(path, FONT_EXTENSIONS[2]) || EndsWith(path, FONT_EXTENSIONS[3])
          || EndsWith(path, FONT_EXTENSIONS[4]);
        Ok(Static)
  }

  function BaseUrl(kind: Kind): string
  {
    if kind == Css2 then API_BASE else STATIC_BASE
  }

  function Host(kind: Kind): string
  {
    if kind == Css2 then API_HOST else STATIC_HOST
  }

  /** The base resolved against the requested path, with `?query` appended when the query is not empty. */
  function TargetUrl(kind: Kind, path: string, query: string): string
  {
    var url := UrlJoin(BaseUrl(kind), path);
    if query != "" then url + "?" + query else url
  }

  /** The upstream URL, or the rejection when it leaves the base. */
  function Target(kind: Kind, path: string, query: string): Result<string, Rejection>
  {
    var url := TargetUrl(kind, path, query);
    if IsSafeUrl(BaseUrl(kind), url) then Ok(url) else Err(UnsafeUrl)
  }

  /**
   * The headers sent upstream: every inbound header whose name, lower-cased,
   * is not "host", with User-Agent set to the proxy's own.
   */
  function OutgoingHeaders(inbound: map<string, string>): (out: map<string, string>)
    ensures USER_AGENT_HEADER in out && out[USER_AGENT_HEADER] == PROXY_USER_AGENT
    ensures forall k :: k in out ==> Lower(k) != "host"
    ensures forall k :: k in out && k != USER_AGENT_HEADER ==> k in inbound
    ensures forall k :: k in inbound && Lower(k) != "host" ==> k in out
    ensures forall k :: k in inbound && Lower(k) != "host" && k != USER_AGENT_HEADER ==> out[k] == inbound[k]
  {
    var kept := map k | k in inbound && Lower(k) != "host" :: inbound[k];
    assert Lower(USER_AGENT_HEADER) != "host";
    kept[USER_AGENT_HEADER := PROXY_USER_AGENT]
  }

  /** Both upstream bases in a stylesheet become `https://<host>`, the API's first. */
  function RewriteCss(css: string, host: string): string
  {
    var proxied := "https://" + host;
    Replace(Replace(css, API_BASE, proxied), STATIC_BASE, proxied)
  }

  /** Sending already filtered headers through the filter again changes nothing. */
  lemma OutgoingHeadersIdempotent(inbound: map<string, string>)
    ensures OutgoingHeaders(OutgoingHeaders(inbound)) == OutgoingHeaders(inbound)
  {
    var once := OutgoingHeaders(inbound);
    var twice := OutgoingHeaders(once);
    assert twice.Keys == once.Keys;
    forall k | k in once
      ensures twice[k] == once[k]
    {
    }
  }

  lemma HttpsScheme()
    ensures ValidScheme("https") && Lower("https") == "https"
  {
    assert forall k :: 0 <= k < |"https"| ==> IsSchemeChar("https"[k]);
    LowerIdentity("https");
  }

  /** `urljoin` resolves https references against a base, authority included. */
  lemma HttpsIsRelative()
    ensures "https" in USES_RELATIVE && "https" in USES_NETLOC
  {
  }

  /** The target of a path, in terms of the base URL it is resolved against. */
  lemma TargetAgainstBase(kind: Kind, base: string, path: string, query: string)
    requires base == BaseUrl(kind)
    ensures var url := UrlJoin(base, path) + Marked('?', query);
            Target(kind, path, query) == if IsSafeUrl(base, url) then Ok(url) else Err(UnsafeUrl)
  {
    QueryAppended(UrlJoin(base, path), query);
  }

  /** Appending `?query` for a non-empty query is appending `Marked('?', query)`. */
  lemma QueryAppended(url: string, query: string)
    ensures (if query != "" then url + "?" + query else url) == url + Marked('?', query)
  {
    if query != "" {
      ConcatAssoc(url, "?", query);
    } else {
      assert url + "" == url;
    }
  }

  lemma HostWithoutDelims(host: string)
    requires '/' !in host && '?' !in host && '#' !in host
    requires '\t' !in host && '\r' !in host && '\n' !in host
    ensures NoneIn(host, NETLOC_DELIMS) && NoneIn(host, UNSAFE_CHARS)
  {
    forall k | 0 <= k < |host|
      ensures host[k] !in NETLOC_DELIMS && host[k] !in UNSAFE_CHARS
    {
      assert host[k] in host;
    }
  }

  /** Each base URL is `https://` followed by its host and nothing else. */
  lemma BaseUrlParts(kind: Kind)
    ensures BaseUrl(kind) == "https" + "://" + Host(kind)
    ensures ValidScheme("https") && Lower("https") == "https"
    ensures NoneIn(Host(kind), NETLOC_DELIMS) && NoneIn(Host(kind), UNSAFE_CHARS) && Host(kind) != ""
  {
    HttpsScheme();
    BaseUrlIsHttps(kind);
    if kind == Css2 {
      ApiHostPlain();
    } else {
      StaticHostPlain();
    }
  }

  lemma BaseUrlIsHttps(kind: Kind)
    ensures BaseUrl(kind) == "https" + "://" + Host(kind)
  {
    assert "https" + "://" == "https://";
  }

  lemma ApiHostPlain()
    ensures NoneIn(API_HOST, NETLOC_DELIMS) && NoneIn(API_HOST, UNSAFE_CHARS)
  {
    HostWithoutDelims(API_HOST);
  }

  lemma StaticHostPlain()
    ensures NoneIn(STATIC_HOST, NETLOC_DELIMS) && NoneIn(STATIC_HOST, UNSAFE_CHARS)
  {
    HostWithoutDelims(STATIC_HOST);
  }

  /** `urlparse` reads each base as scheme "https", its host, and an empty path. */
  lemma ParseBase(kind: Kind)
    ensures Parse(BaseUrl(kind), "") == Url("https", Host(kind), "", "", "")
  {
    BaseUrlParts(kind);
    ParseAuthority("https", Host(kind), "", "");
    assert "https" + "://" + Host(kind) + "" == BaseUrl(kind);
    assert RemoveUnsafe("") == "";
    SplitRestOfParts("https", Host(kind), "", "", "");
  }

  /**
   * Both bases have an empty path, so for them `is_safe_url` is exactly
   * equality of hosts: a target on another host is refused whatever its path.
   */
  lemma SafeIffUpstreamHost(kind: Kind, target: string)
    ensures IsSafeUrl(BaseUrl(kind), target) <==> Parse(target, "").netloc == Host(kind)
  {
    BaseUrlParts(kind);
    SafeIffSameNetloc("https", Host(kind), target);
  }

  /** An accepted target always lies on the host of its request kind. */
  lemma TargetOnUpstreamHost(kind: Kind, path: string, query: string)
    ensures Target(kind, path, query).Ok? ==> Parse(Target(kind, path, query).value, "").netloc == Host(kind)
  {
    SafeIffUpstreamHost(kind, TargetUrl(kind, path, query));
  }

  /** `urljoin` puts an ordinary path after the base and a '/'. */
  lemma JoinOrdinaryPath(kind: Kind, path: string)
    requires OrdinaryPath(path)
    ensures UrlJoin(BaseUrl(kind), path) == BaseUrl(kind) + "/" + path
  {
    BaseUrlParts(kind);
    JoinOrdinary("https", Host(kind), path);
  }

  /**
   * An ordinary path is accepted and fetched from the kind's base, the path
   * after a '/' and the query after a '?' when there is one.
   */
  lemma OrdinaryPathTarget(kind: Kind, path: string, query: string)
    requires OrdinaryPath(path)
    ensures Target(kind, path, query) == Ok(BaseUrl(kind) + "/" + path + Marked('?', query))
  {
    BaseUrlParts(kind);
    TargetAgainstBase(kind, "https" + "://" + Host(kind), path, query);
    OrdinaryTarget("https", Host(kind), path, query);
  }

  /**
   * A network-path reference `//host...` to another host, behind blanks and
   * with tab, CR or LF anywhere, is resolved onto that host, and the
   * confinement check refuses it.
   */
  lemma NetworkPathRejected(kind: Kind, blank: string, host: string, rest: string, query: string)
    requires Blank(blank) && NoneIn(host, NETLOC_DELIMS)
    requires RemoveUnsafe(host) != "" && RemoveUnsafe(host) != Host(kind)
    requires rest == "" || rest[0] in NETLOC_DELIMS
    ensures Target(kind, blank + "//" + host + rest, query) == Err(UnsafeUrl)
  {
    BaseUrlParts(kind);
    TargetAgainstBase(kind, "https" + "://" + Host(kind), blank + "//" + host + rest, query);
    HttpsIsRelative();
    NetworkPathUnsafe("https", Host(kind), blank, host, rest, query);
  }

  /**
   * A network-path reference whose authority is the kind's own host once
   * tab, CR and LF are taken out is accepted, and fetched as `https://`, that
   * host and the cleaned rest.
   */
  lemma NetworkPathToOwnHost(kind: Kind, blank: string, host: string, rest: string, query: string)
    requires Blank(blank) && NoneIn(host, NETLOC_DELIMS) && RemoveUnsafe(host) == Host(kind)
    requires rest == "" || rest[0] in NETLOC_DELIMS
    ensures Target(kind, blank + "//" + host + rest, query)
         == Ok(Unparse(SplitRest("https", Host(kind), RemoveUnsafe(rest))) + Marked('?', query))
  {
    BaseUrlParts(kind);
    TargetAgainstBase(kind, "https" + "://" + Host(kind), blank + "//" + host + rest, query);
    HttpsIsRelative();
    NetworkPathSameAuthority("https", Host(kind), blank, host, rest, query);
  }

  /**
   * Only the authority is compared: a URL naming the kind's own host under
   * any scheme other than https, and no query, is passed on unchanged and
   * accepted.
   */
  lemma OtherSchemeAccepted(kind: Kind, scheme: string, rest: string)
    requires ValidScheme(scheme) && Lower(scheme) != "https"
    requires rest == "" || rest[0] in NETLOC_DELIMS
    ensures var url := scheme + "://" + Host(kind) + rest;
            Target(kind, url, "") == Ok(url)
  {
    BaseUrlParts(kind);
    TargetAgainstBase(kind, "https" + "://" + Host(kind), scheme + "://" + Host(kind) + rest, "");
    OtherSchemeSameAuthority("https", scheme, Host(kind), rest);
  }

  lemma HttpScheme()
    ensures ValidScheme("http") && Lower("http") == "http"
  {
    assert forall k :: 0 <= k < |"http"| ==> IsSchemeChar("http"[k]);
    LowerIdentity("http");
  }

  /** A static request for the static host over plain http is fetched over plain http. */
  lemma SchemeIsNotCompared()
    ensures var url := "http" + "://" + STATIC_HOST + "/a.ttf";
            Target(Static, url, "") == Ok(url)
  {
    HttpScheme();
    assert Lower("http") != "https" by {
      assert |Lower("http")| != |"https"|;
    }
    assert "/a.ttf"[0] in NETLOC_DELIMS;
    OtherSchemeAccepted(Static, "http", "/a.ttf");
  }

  /** Every font extension ends in 'f', '2' or 't', so a path ending otherwise has none of them. */
  lemma NoFontEnding(path: string)
    requires path != "" && path[|path| - 1] !in {'f', '2', 't'}
    ensures !HasFontExtension(path)
  {
    forall e | e in FONT_EXTENSIONS
      ensures !EndsWith(path, e)
    {
      assert e[|e| - 1] in {'f', '2', 't'};
    }
  }

  /** A requested path ending in ".exe", or in ".TTF" in capitals, is no font. */
  lemma NonFontPathsRejected(argNames: set<string>)
    ensures Classify("font.exe", argNames) == Err(InvalidFontPath)
    ensures Classify("a.TTF", argNames) == Err(InvalidFontPath)
  {
    NoFontEnding("font.exe");
    assert "font.exe"[..4][0] != "css2"[0];
    NoFontEnding("a.TTF");
  }

  /** The "css2" prefix wins over a font extension, and only the presence of `family` is checked. */
  lemma StylesheetPrefixFirst()
    ensures Classify("css2.woff2", {}) == Err(MissingFamily)
    ensures Classify("css2", {"family"}) == Ok(Css2)
  {
  }

  /**
   * A stylesheet made of the static base and a tail that contains neither
   * base is rewritten to the proxy's address followed by the same tail.
   */
  lemma RewriteStaticPrefixed(tail: string, host: string)
    requires !Occurs(tail, API_BASE) && !Occurs(tail, STATIC_BASE)
    ensures RewriteCss(STATIC_BASE + tail, host) == "https://" + host + tail
  {
    var css := STATIC_BASE + tail;
    var proxied := "https://" + host;
    assert !OccursAt(css, API_BASE, 0) by {
      assert css[15] == STATIC_BASE[15];
    }
    assert forall k :: 0 < k < |STATIC_BASE| ==> STATIC_BASE[k] != 'h';
    AbsentBehindPrefix(STATIC_BASE, tail, API_BASE);
    ReplaceAbsent(css, API_BASE, proxied);
    ReplaceLeading(STATIC_BASE, tail, proxied);
    ReplaceAbsent(tail, STATIC_BASE, proxied);
  }

  /**
   * A stylesheet made of the API base and a tail without it becomes the
   * proxy's address and the same tail. The second replace runs over the
   * proxy's address too, so the result must not spell the static base.
   */
  lemma RewriteApiPrefixed(tail: string, host: string)
    requires !Occurs(tail, API_BASE) && !Occurs("https://" + host + tail, STATIC_BASE)
    ensures RewriteCss(API_BASE + tail, host) == "https://" + host + tail
  {
    var proxied := "https://" + host;
    ReplaceLeading(API_BASE, tail, proxied);
    ReplaceAbsent(tail, API_BASE, proxied);
    ReplaceAbsent(proxied + tail, STATIC_BASE, proxied);
  }

  /**
   * The rewrite cuts the stylesheet at every occurrence of the API base and
   * glues the pieces with the proxy's address, then does the same for the
   * static base; by `Split`'s contract no piece contains the base it was cut at.
   */
  lemma RewriteCutsBothBases(css: string, host: string)
    ensures var proxied := "https://" + host;
            RewriteCss(css, host) == Join(Split(Join(Split(css, API_BASE), proxied), STATIC_BASE), proxied)
  {
    var proxied := "https://" + host;
    ReplaceIsJoinOfSplit(css, API_BASE, proxied);
    ReplaceIsJoinOfSplit(Replace(css, API_BASE, proxied), STATIC_BASE, proxied);
  }
}

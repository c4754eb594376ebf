/**
 * The part of Python's `urllib.parse` that the proxy calls: `urlparse`,
 * `urlunparse` and `urljoin`, and the confinement check `is_safe_url` built
 * on them, as in CPython 3.12. Its `urljoin` departs from reference
 * resolution in section 5.2 of RFC 3986 in several ways, among them these
 * three: it drops empty
 * segments inside the merged path, so `c//d` against a base path `/b/`
 * gives `/b/c/d`; it keeps the path of a network-path reference `//host...`
 * as it is, dot segments included; and it returns a reference with another
 * scheme as it was given, neither cleaned nor resolved. A URL is split into
 * scheme, authority (Python's "netloc", section 3.2 of RFC 3986), path,
 * query and fragment.
 */
module Urls {
  import opened Text

  datatype Url = Url(scheme: string, netloc: string, path: string, query: string, fragment: string)

  /** Schemes whose URLs `urljoin` resolves against a base. */
  const USES_RELATIVE: set<string> := {"", "ftp", "http", "gopher", "nntp", "imap", "wais", "file", "https",
    "shttp", "mms", "prospero", "rtsp", "rtsps", "rtspu", "sftp", "svn", "svn+ssh", "ws", "wss"}

  /** Schemes whose URLs carry an authority. */
  const USES_NETLOC: set<string> := {"", "ftp", "http", "gopher", "nntp", "telnet", "imap", "wais", "file",
    "mms", "https", "shttp", "snews", "prospero", "rtsp", "rtsps", "rtspu", "rsync", "svn", "svn+ssh",
    "sftp", "nfs", "git", "git+ssh", "ws", "wss", "itms-services"}

  /** The characters that end an authority. */
  const NETLOC_DELIMS: set<char> := {'/', '?', '#'}

  predicate IsAsciiAlpha(c: char)
  {
    'a' <= c <= 'z' || 'A' <= c <= 'Z'
  }

  predicate IsSchemeChar(c: char)
  {
    IsAsciiAlpha(c) || '0' <= c <= '9' || c == '+' || c == '-' || c == '.'
  }

  /** What `urlsplit` accepts as a scheme: a letter, then letters, digits, '+', '-' or '.'. */
  predicate ValidScheme(s: string)
  {
    s != "" && IsAsciiAlpha(s[0]) && forall k :: 0 <= k < |s| ==> IsSchemeChar(s[k])
  }

  /** The characters `urlsplit` strips from the front of a URL: the C0 controls and space. */
  predicate IsC0OrSpace(c: char)
  {
    c <= ' '
  }

  /** The characters `urlsplit` removes wherever they occur: tab, carriage return and line feed. */
  const UNSAFE_CHARS: set<char> := {'\t', '\r', '\n'}

  predicate IsUnsafe(c: char)
    ensures IsUnsafe(c) <==> c in UNSAFE_CHARS
  {
    c == '\t' || c == '\r' || c == '\n'
  }

  /** `s.lstrip(...)` of the C0 controls and space: what is dropped is all blank, what is kept starts otherwise. */
  function StripLeading(s: string): (r: string)
    ensures |r| <= |s| && r == s[|s| - |r|..]
    ensures r == "" || !IsC0OrSpace(r[0])
    ensures forall k :: 0 <= k < |s| - |r| ==> IsC0OrSpace(s[k])
    decreases |s|
  {
    if s != [] && IsC0OrSpace(s[0]) then StripLeading(s[1..]) else s
  }

  /** `s` with every tab, carriage return and line feed taken out; nothing else is added. */
  function RemoveUnsafe(s: string): (r: string)
    ensures |r| <= |s|
    ensures NoneIn(r, UNSAFE_CHARS)
    ensures forall c :: c in r ==> c in s
  {
    if s == [] then []
    else (if IsUnsafe(s[0]) then [] else [s[0]]) + RemoveUnsafe(s[1..])
  }

  /** What `urlsplit` reads in place of its input. */
  function Clean(s: string): string
  {
    RemoveUnsafe(StripLeading(s))
  }

  /** Taking out tab, CR and LF works piece by piece. */
  lemma {:induction false} RemoveUnsafeConcat(a: string, b: string)
    ensures RemoveUnsafe(a + b) == RemoveUnsafe(a) + RemoveUnsafe(b)
    decreases |a|
  {
    if a != [] {
      assert (a + b)[1..] == a[1..] + b;
      RemoveUnsafeConcat(a[1..], b);
      var head: string := if IsUnsafe(a[0]) then [] else [a[0]];
      assert RemoveUnsafe(a + b) == head + RemoveUnsafe(a[1..] + b);
      assert head + (RemoveUnsafe(a[1..]) + RemoveUnsafe(b)) == (head + RemoveUnsafe(a[1..])) + RemoveUnsafe(b);
    } else {
      assert a + b == b;
    }
  }

  /** Text without tab, CR or LF is left as it is. */
  lemma {:induction false} RemoveUnsafeKeeps(s: string)
    requires NoneIn(s, UNSAFE_CHARS)
    ensures RemoveUnsafe(s) == s
    decreases |s|
  {
    if s != [] {
      assert s[0] !in UNSAFE_CHARS;
      RemoveUnsafeKeeps(s[1..]);
      assert [s[0]] + s[1..] == s;
    }
  }

  /** Text starting with a character that is not taken out keeps that first character. */
  lemma RemoveUnsafeFirst(s: string)
    requires s != "" && s[0] !in UNSAFE_CHARS
    ensures RemoveUnsafe(s) != "" && RemoveUnsafe(s)[0] == s[0]
  {
  }

  /** No delimiter of an authority is taken out. */
  lemma DelimIsSafe(c: char)
    requires c in NETLOC_DELIMS
    ensures c !in UNSAFE_CHARS
  {
  }

  /** Cleaning leaves text that already starts with a non-blank character and has no tab, CR or LF. */
  lemma CleanKeeps(s: string)
    requires s != "" && !IsC0OrSpace(s[0]) && NoneIn(s, UNSAFE_CHARS)
    ensures Clean(s) == s
  {
    RemoveUnsafeKeeps(s);
  }

  /** Behind such a start, cleaning only takes tab, CR and LF out of the rest. */
  lemma CleanAfterPrefix(a: string, b: string)
    requires a != "" && !IsC0OrSpace(a[0]) && NoneIn(a, UNSAFE_CHARS)
    ensures Clean(a + b) == a + RemoveUnsafe(b)
  {
    assert (a + b)[0] == a[0];
    RemoveUnsafeConcat(a, b);
    RemoveUnsafeKeeps(a);
  }

  /** Blanks in front of text that does not start with one are stripped. */
  lemma {:induction false} StripBlankPrefix(blank: string, s: string)
    requires forall k :: 0 <= k < |blank| ==> IsC0OrSpace(blank[k])
    requires s == "" || !IsC0OrSpace(s[0])
    ensures StripLeading(blank + s) == s
    decreases |blank|
  {
    if blank != [] {
      assert (blank + s)[1..] == blank[1..] + s;
      StripBlankPrefix(blank[1..], s);
    } else {
      assert blank + s == s;
    }
  }

  /** Cleaning twice is cleaning once. */
  lemma CleanIdempotent(s: string)
    ensures Clean(Clean(s)) == Clean(s)
  {
    var t := StripLeading(s);
    var c := Clean(s);
    if c != "" {
      RemoveUnsafeFirst(t);
      CleanKeeps(c);
    }
  }

  /**
   * Splits off the scheme: the text before the first ':' when it is a valid
   * scheme, lower-cased; otherwise there is none.
   */
  function SplitScheme(s: string): (string, string)
  {
    var i := IndexOfAny(s, {':'});
    if 0 < i < |s| && ValidScheme(s[..i]) then (Lower(s[..i]), s[i + 1..]) else ("", s)
  }

  /** After a leading "//", the authority runs up to the first '/', '?' or '#'. */
  function SplitNetloc(s: string): (string, string)
  {
    if StartsWith(s, "//") then
      var j := 2 + IndexOfAny(s[2..], NETLOC_DELIMS);
      (s[2..j], s[j..])
    else ("", s)
  }

  /** What comes before the first `mark` in `s`, and what comes after it ("" when there is none). */
  function CutAt(s: string, mark: char): (string, string)
  {
    var i := IndexOfAny(s, {mark});
    (s[..i], if i < |s| then s[i + 1..] else "")
  }

  /** Cuts what follows the authority at the first '#', then at the first '?'. */
  function SplitRest(scheme: string, netloc: string, s: string): Url
  {
    var (beforeFragment, fragment) := CutAt(s, '#');
    var (path, query) := CutAt(beforeFragment, '?');
    Url(scheme, netloc, path, query, fragment)
  }

  /**
   * `urlparse(s, defaultScheme)`, reading `Clean(s)` as `urlsplit` does. The
   * default scheme is used as given: `urlsplit` would clean it too, which
   * changes nothing for "" and for a scheme read by `urlparse`, the only ones
   * passed to it here.
   */
  function Parse(s: string, defaultScheme: string): Url
  {
    var (scheme, afterScheme) := SplitScheme(Clean(s));
    var (netloc, rest) := SplitNetloc(afterScheme);
    SplitRest(if scheme == "" then defaultScheme else scheme, netloc, rest)
  }

  /** A path behind an authority begins with '/'. */
  function RootedPath(path: string): string
  {
    if path != "" && path[0] != '/' then "/" + path else path
  }

  /** `mark + part` when `part` is not empty. */
  function Marked(mark: char, part: string): string
  {
    if part != "" then [mark] + part else ""
  }

  /** `urlunparse(u)` */
  function Unparse(u: Url): string
  {
    var hierarchical :=
      if u.netloc != "" || (u.scheme != "" && u.scheme in USES_NETLOC && !StartsWith(u.path, "//"))
      then "//" + u.netloc + RootedPath(u.path)
      else u.path;
    (if u.scheme != "" then u.scheme + ":" else "") + hierarchical + Marked('?', u.query) + Marked('#', u.fragment)
  }

  /** Drops the empty segments between the first and the last, which CPython's `urljoin` does and RFC 3986 does not. */
  function DropInnerEmpty(segments: seq<string>): (r: seq<string>)
    ensures |segments| >= 1 ==> |r| >= 1
  {
    if |segments| < 2 then segments
    else [segments[0]] + NonEmpty(segments[1..|segments| - 1]) + [segments[|segments| - 1]]
  }

  function NonEmpty(segments: seq<string>): seq<string>
  {
    if segments == [] then []
    else (if segments[0] == "" then [] else [segments[0]]) + NonEmpty(segments[1..])
  }

  /** Removes "." and ".." segments; ".." drops the segment kept last, if any. */
  function ResolveDots(segments: seq<string>, resolved: seq<string>): seq<string>
    decreases |segments|
  {
    if segments == [] then resolved
    else if segments[0] == ".." then
      ResolveDots(segments[1..], if resolved == [] then [] else resolved[..|resolved| - 1])
    else if segments[0] == "." then ResolveDots(segments[1..], resolved)
    else ResolveDots(segments[1..], resolved + [segments[0]])
  }

  /**
   * The segments `urljoin` resolves: those of a rooted path alone, otherwise
   * the base's directory followed by the path's, inner empty ones dropped.
   */
  function Segments(basePath: string, path: string): (r: seq<string>)
    ensures |r| >= 1
  {
    var baseParts := Split(basePath, "/");
    var baseDir := if baseParts[|baseParts| - 1] != "" then baseParts[..|baseParts| - 1] else baseParts;
    if StartsWith(path, "/") then Split(path, "/") else DropInnerEmpty(baseDir + Split(path, "/"))
  }

  /** Resolves the dot segments and joins what is left with '/', giving "/" for nothing. */
  function JoinSegments(segments: seq<string>): string
    requires |segments| >= 1
  {
    var resolved := ResolveDots(segments, []);
    var last := segments[|segments| - 1];
    var joined := Join(if last == "." || last == ".." then resolved + [""] else resolved, "/");
    if joined == "" then "/" else joined
  }

  /** The path `urljoin` builds from a base path and a non-empty relative path. */
  function MergePath(basePath: string, path: string): string
  {
    JoinSegments(Segments(basePath, path))
  }

  /** CPython's merge drops an empty segment where RFC 3986 would keep it (`/b/c//d`). */
  lemma InnerEmptySegmentDropped()
    ensures MergePath("/b/", "c//d") == "/b/c/d"
  {
    SegmentsWithInnerEmpty();
    PlainSegmentsJoined();
  }

  lemma PlainSegmentsJoined()
    ensures JoinSegments(["", "b", "c", "d"]) == "/b/c/d"
  {
    var segments := ["", "b", "c", "d"];
    assert ResolveDots(segments, []) == segments by {
      assert ResolveDots(segments, []) == ResolveDots(["b", "c", "d"], [""]);
      assert ResolveDots(["b", "c", "d"], [""]) == ResolveDots(["c", "d"], ["", "b"]);
      assert ResolveDots(["c", "d"], ["", "b"]) == ResolveDots(["d"], ["", "b", "c"]);
    }
    assert Join(segments, "/") == "/b/c/d";
  }

  lemma SegmentsWithInnerEmpty()
    ensures Segments("/b/", "c//d") == ["", "b", "c", "d"]
  {
    SplitSlashes("/b/", ["", "b", ""]);
    SplitSlashes("c//d", ["c", "", "d"]);
    assert !StartsWith("c//d", "/");
    SegmentsBelowDirectory("/b/", "c//d", ["", "b", ""], ["c", "", "d"]);
    assert ["", "b", ""] + ["c", "", "d"] == ["", "b", "", "c", "", "d"];
    InnerEmptyFiltered("b", "c", "d");
  }

  /** Under a base path ending in '/', a relative path's segments follow all of the base's. */
  lemma SegmentsBelowDirectory(basePath: string, path: string, baseParts: seq<string>, parts: seq<string>)
    requires Split(basePath, "/") == baseParts && Split(path, "/") == parts
    requires baseParts[|baseParts| - 1] == "" && !StartsWith(path, "/")
    ensures Segments(basePath, path) == DropInnerEmpty(baseParts + parts)
  {
  }

  lemma InnerEmptyFiltered(b: string, c: string, d: string)
    requires b != "" && c != ""
    ensures DropInnerEmpty(["", b, "", c, "", d]) == ["", b, c, d]
  {
    var inner := [b, "", c, ""];
    assert [""] + inner + [d] == ["", b, "", c, "", d];
    DropInnerEmptyOf("", inner, d);
    NonEmptyStep(b, ["", c, ""]);
    NonEmptyStep("", [c, ""]);
    NonEmptyStep(c, [""]);
    NonEmptyStep("", []);
  }

  /** The filter keeps the first and last segments and filters the ones between. */
  lemma DropInnerEmptyOf(first: string, inner: seq<string>, last: string)
    ensures DropInnerEmpty([first] + inner + [last]) == [first] + NonEmpty(inner) + [last]
  {
    var segments := [first] + inner + [last];
    assert segments[1..|segments| - 1] == inner;
  }

  lemma NonEmptyStep(seg: string, rest: seq<string>)
    ensures NonEmpty([seg] + rest) == (if seg == "" then [] else [seg]) + NonEmpty(rest)
  {
    assert ([seg] + rest)[1..] == rest;
  }

  lemma SplitSlashes(s: string, parts: seq<string>)
    requires (s, parts) in {("/b/", ["", "b", ""]), ("c//d", ["c", "", "d"])}
    ensures Split(s, "/") == parts
  {
    assert Split("", "/") == [""];
    SplitAtSep("/", "");
    assert "/" + "" == "/";
    SplitAtChar('d', "", "/");
    assert ['d'] + "" == "d";
    if s == "/b/" {
      SplitAtChar('b', "/", "/");
      assert ['b'] + "/" == "b/";
      SplitAtSep("/", "b/");
      assert "/" + "b/" == "/b/";
    } else {
      SplitAtSep("/", "d");
      assert "/" + "d" == "/d";
      SplitAtSep("/", "/d");
      assert "/" + "/d" == "//d";
      SplitAtChar('c', "//d", "/");
      assert ['c'] + "//d" == "c//d";
    }
  }

  /** `urljoin(base, url)` */
  function UrlJoin(base: string, url: string): string
  {
    if base == "" then url
    else if url == "" then base
    else
      var b := Parse(base, "");
      var t := Parse(url, b.scheme);
      if t.scheme != b.scheme || t.scheme !in USES_RELATIVE then url
      else if t.scheme in USES_NETLOC && t.netloc != "" then Unparse(t)
      else
        var netloc := if t.scheme in USES_NETLOC then b.netloc else t.netloc;
        if t.path == "" then
          Unparse(Url(t.scheme, netloc, b.path, if t.query != "" then t.query else b.query, t.fragment))
        else
          Unparse(Url(t.scheme, netloc, MergePath(b.path, t.path), t.query, t.fragment))
  }

  /**
   * `is_safe_url(base, target)`: the target has the base's authority and its
   * path starts with the base's path. The schemes are not compared.
   */
  predicate IsSafeUrl(baseUrl: string, targetUrl: string)
  {
    var b := Parse(baseUrl, "");
    var t := Parse(targetUrl, "");
    b.netloc == t.netloc && StartsWith(t.path, b.path)
  }

  /** A valid scheme has no blank, tab, CR or LF in it. */
  lemma SchemeIsClean(scheme: string)
    requires ValidScheme(scheme)
    ensures !IsC0OrSpace(scheme[0]) && NoneIn(scheme, UNSAFE_CHARS)
  {
    forall k | 0 <= k < |scheme|
      ensures scheme[k] !in UNSAFE_CHARS
    {
      assert IsSchemeChar(scheme[k]);
    }
  }

  /** Pieces without any character of `cs` join into text without one. */
  lemma NoneInConcat(a: string, b: string, cs: set<char>)
    requires NoneIn(a, cs) && NoneIn(b, cs)
    ensures NoneIn(a + b, cs)
  {
    forall k | 0 <= k < |a + b|
      ensures (a + b)[k] !in cs
    {
      if k >= |a| {
        assert (a + b)[k] == b[k - |a|];
      }
    }
  }

  /** `scheme://netloc` is read by `urlsplit` as it is written. */
  lemma CleanAuthority(scheme: string, netloc: string, rest: string)
    requires ValidScheme(scheme) && NoneIn(netloc, UNSAFE_CHARS)
    ensures Clean(scheme + "://" + netloc + rest) == scheme + "://" + netloc + RemoveUnsafe(rest)
  {
    SchemeIsClean(scheme);
    NoneInConcat(scheme, "://", UNSAFE_CHARS);
    NoneInConcat(scheme + "://", netloc, UNSAFE_CHARS);
    CleanAfterPrefix(scheme + "://" + netloc, rest);
  }

  /**
   * A URL written as `scheme://netloc` followed by nothing or by a path,
   * query or fragment is read back with exactly that scheme (lower-cased) and
   * that authority; tab, CR and LF are taken out of what follows.
   */
  lemma ParseAuthority(scheme: string, netloc: string, rest: string, defaultScheme: string)
    requires ValidScheme(scheme) && NoneIn(netloc, NETLOC_DELIMS) && NoneIn(netloc, UNSAFE_CHARS)
    requires rest == "" || rest[0] in NETLOC_DELIMS
    ensures Parse(scheme + "://" + netloc + rest, defaultScheme) == SplitRest(Lower(scheme), netloc, RemoveUnsafe(rest))
  {
    var cleanRest := RemoveUnsafe(rest);
    CleanAuthority(scheme, netloc, rest);
    if rest != "" {
      DelimIsSafe(rest[0]);
      RemoveUnsafeFirst(rest);
    }
    ParseWithScheme(scheme + "://" + netloc + rest, defaultScheme, scheme, netloc, cleanRest);
  }

  /** Text that cleans to `scheme://netloc` and a rest starting at a delimiter parses into those parts. */
  lemma ParseWithScheme(s: string, defaultScheme: string, scheme: string, netloc: string, rest: string)
    requires Clean(s) == scheme + "://" + netloc + rest
    requires ValidScheme(scheme) && NoneIn(netloc, NETLOC_DELIMS)
    requires rest == "" || rest[0] in NETLOC_DELIMS
    ensures Parse(s, defaultScheme) == SplitRest(Lower(scheme), netloc, rest)
  {
    AuthorityAfterColon(scheme, netloc, rest);
    SplitSchemeOf(scheme, "//" + netloc + rest);
    SplitNetlocOf(netloc, rest);
  }

  lemma AuthorityAfterColon(scheme: string, netloc: string, rest: string)
    ensures scheme + "://" + netloc + rest == scheme + (":" + ("//" + netloc + rest))
  {
    ConcatAssoc(scheme, "://", netloc);
    ConcatAssoc(scheme, "://" + netloc, rest);
    assert "://" + netloc + rest == ":" + ("//" + netloc + rest);
  }

  /** A valid scheme followed by ':' is split off, lower-cased. */
  lemma SplitSchemeOf(scheme: string, after: string)
    requires ValidScheme(scheme)
    ensures SplitScheme(scheme + (":" + after)) == (Lower(scheme), after)
  {
    var s := scheme + (":" + after);
    assert NoneIn(scheme, {':'});
    IndexOfAnyAfter(scheme, ":" + after, {':'});
    assert s[..|scheme|] == scheme;
    assert s[|scheme| + 1..] == after;
  }

  /** After "//", an authority free of delimiters is split off before the delimiter that ends it. */
  lemma SplitNetlocOf(netloc: string, rest: string)
    requires NoneIn(netloc, NETLOC_DELIMS)
    requires rest == "" || rest[0] in NETLOC_DELIMS
    ensures SplitNetloc("//" + netloc + rest) == (netloc, rest)
  {
    var s := "//" + netloc + rest;
    assert s[2..] == netloc + rest;
    IndexOfAnyAfter(netloc, rest, NETLOC_DELIMS);
    assert s[2..2 + |netloc|] == netloc;
    assert s[2 + |netloc|..] == rest;
  }

  /** The text after the authority that `Unparse` writes for a URL with one. */
  function AfterAuthority(u: Url): string
  {
    RootedPath(u.path) + Marked('?', u.query) + Marked('#', u.fragment)
  }

  /** A URL with a scheme and an authority is written as `scheme://netloc` and what follows it. */
  lemma UnparseAuthority(u: Url)
    requires u.scheme != "" && u.netloc != ""
    ensures Unparse(u) == u.scheme + "://" + u.netloc + AfterAuthority(u)
    ensures AfterAuthority(u) == "" || AfterAuthority(u)[0] in NETLOC_DELIMS
  {
    var rooted := RootedPath(u.path);
    var tail := Marked('?', u.query) + Marked('#', u.fragment);
    assert AfterAuthority(u) == rooted + tail;
    assert Unparse(u) == (u.scheme + ":") + ("//" + u.netloc + rooted) + tail;
    assert (u.scheme + ":") + ("//" + u.netloc + rooted) + tail == u.scheme + "://" + u.netloc + (rooted + tail);
  }

  /** A URL with an authority in the form `urlunparse` writes and `urlparse` reads back unchanged. */
  predicate WellFormed(u: Url)
  {
    && ValidScheme(u.scheme)
    && Lower(u.scheme) == u.scheme
    && u.netloc != ""
    && NoneIn(u.netloc, NETLOC_DELIMS)
    && (u.path == "" || u.path[0] == '/')
    && NoneIn(u.path, {'?', '#'})
    && NoneIn(u.query, {'#'})
    && NoneIn(u.netloc, UNSAFE_CHARS) && NoneIn(u.path, UNSAFE_CHARS)
    && NoneIn(u.query, UNSAFE_CHARS) && NoneIn(u.fragment, UNSAFE_CHARS)
  }

  /** What follows the authority of a well-formed URL has no tab, CR or LF for `urlsplit` to take out. */
  lemma AfterAuthorityKept(u: Url)
    requires WellFormed(u)
    ensures RemoveUnsafe(AfterAuthority(u)) == AfterAuthority(u)
  {
    NoneInConcat("/", u.path, UNSAFE_CHARS);
    NoneInConcat("?", u.query, UNSAFE_CHARS);
    NoneInConcat("#", u.fragment, UNSAFE_CHARS);
    NoneInConcat(RootedPath(u.path), Marked('?', u.query), UNSAFE_CHARS);
    NoneInConcat(RootedPath(u.path) + Marked('?', u.query), Marked('#', u.fragment), UNSAFE_CHARS);
    RemoveUnsafeKeeps(AfterAuthority(u));
  }

  /** Text free of a mark, followed by the marked part, is cut at the mark. */
  lemma CutAtMark(before: string, mark: char, part: string)
    requires NoneIn(before, {mark})
    ensures CutAt(before + Marked(mark, part), mark) == (before, part)
  {
    var s := before + Marked(mark, part);
    IndexOfAnyAfter(before, Marked(mark, part), {mark});
    assert s[..|before|] == before;
    if part != "" {
      assert s[|before| + 1..] == part;
    }
  }

  /** A path free of '?' and '#', then a query free of '#', stay free of '#'. */
  lemma NoFragmentMark(path: string, query: string)
    requires NoneIn(path, {'?', '#'}) && NoneIn(query, {'#'})
    ensures NoneIn(path + Marked('?', query), {'#'})
  {
    var s := path + Marked('?', query);
    forall k | 0 <= k < |s|
      ensures s[k] != '#'
    {
      if k >= |path| {
        assert s[k] == Marked('?', query)[k - |path|];
      }
    }
  }

  /** Path, query and fragment written one after the other are cut apart again. */
  lemma SplitRestOfParts(scheme: string, netloc: string, path: string, query: string, fragment: string)
    requires NoneIn(path, {'?', '#'}) && NoneIn(query, {'#'})
    ensures SplitRest(scheme, netloc, path + Marked('?', query) + Marked('#', fragment))
         == Url(scheme, netloc, path, query, fragment)
  {
    var before := path + Marked('?', query);
    var s := before + Marked('#', fragment);
    NoFragmentMark(path, query);
    CutAtMark(before, '#', fragment);
    assert NoneIn(path, {'?'}) by {
      forall k | 0 <= k < |path|
        ensures path[k] != '?'
      {
        assert path[k] !in {'?', '#'};
      }
    }
    CutAtMark(path, '?', query);
  }

  /** `urlparse(urlunparse(u)) == u` for a well-formed URL. */
  lemma ParseUnparse(u: Url)
    requires WellFormed(u)
    ensures Parse(Unparse(u), "") == u
  {
    UnparseAuthority(u);
    AfterAuthorityKept(u);
    ParseAuthority(u.scheme, u.netloc, AfterAuthority(u), "");
    SplitRestOfParts(u.scheme, u.netloc, u.path, u.query, u.fragment);
  }

  /** When the base is `scheme://netloc` with nothing after it, the check is exactly equality of authorities. */
  lemma SafeIffSameNetloc(scheme: string, netloc: string, target: string)
    requires ValidScheme(scheme) && NoneIn(netloc, NETLOC_DELIMS) && NoneIn(netloc, UNSAFE_CHARS)
    ensures IsSafeUrl(scheme + "://" + netloc, target) <==> Parse(target, "").netloc == netloc
  {
    ParseAuthority(scheme, netloc, "", "");
    assert RemoveUnsafe("") == "";
    assert scheme + "://" + netloc + "" == scheme + "://" + netloc;
  }

  /** `urlparse` of `scheme://netloc` alone: that scheme, lower-cased, and authority, nothing else. */
  lemma ParseRoot(scheme: string, netloc: string, defaultScheme: string)
    requires ValidScheme(scheme) && NoneIn(netloc, NETLOC_DELIMS) && NoneIn(netloc, UNSAFE_CHARS)
    ensures Parse(scheme + "://" + netloc, defaultScheme) == Url(Lower(scheme), netloc, "", "", "")
  {
    ParseAuthority(scheme, netloc, "", defaultScheme);
    assert RemoveUnsafe("") == "";
    assert scheme + "://" + netloc + "" == scheme + "://" + netloc;
    SplitRestOfParts(Lower(scheme), netloc, "", "", "");
  }

  /** The branch of `urljoin` that merges a relative path into the base's path, for base and reference read as `b` and `t`. */
  lemma JoinMerged(base: string, url: string, b: Url, t: Url)
    requires base != "" && url != ""
    requires Parse(base, "") == b && Parse(url, b.scheme) == t
    requires t.scheme == b.scheme && b.scheme in USES_RELATIVE && b.scheme in USES_NETLOC
    requires t.netloc == "" && t.path != ""
    ensures UrlJoin(base, url) == Unparse(Url(b.scheme, b.netloc, MergePath(b.path, t.path), t.query, t.fragment))
  {
  }

  /** `scheme://netloc` followed by a path that starts with '/' is written as it is. */
  lemma UnparseRooted(scheme: string, netloc: string, path: string)
    requires scheme != "" && netloc != ""
    ensures Unparse(Url(scheme, netloc, "/" + path, "", "")) == scheme + "://" + netloc + "/" + path
  {
    var u := Url(scheme, netloc, "/" + path, "", "");
    UnparseAuthority(u);
    assert AfterAuthority(u) == "/" + path;
    ConcatAssoc(scheme + "://" + netloc, "/", path);
  }

  /**
   * A relative path of plain segments that `urlsplit` reads as it is: it
   * starts with no blank and has no tab, CR or LF, and no ':', '?', '#' or ';'.
   */
  predicate OrdinaryPath(path: string)
  {
    && path != "" && !IsC0OrSpace(path[0])
    && NoneIn(path, {':', '?', '#', ';', '\t', '\r', '\n'})
    && forall seg :: seg in Split(path, "/") ==> seg != "" && seg != "." && seg != ".."
  }

  /** A word of lower-case letters and digits is an ordinary path of one segment. */
  lemma PlainWordOrdinary(word: string)
    requires word != "" && forall k :: 0 <= k < |word| ==> 'a' <= word[k] <= 'z' || '0' <= word[k] <= '9'
    ensures OrdinaryPath(word)
  {
    AbsentFirstChar(word, "/");
    SplitAbsent(word, "/");
    assert Split(word, "/") == [word];
    assert forall seg :: seg in [word] ==> seg == word;
    assert word != "." && word != ".." by {
      assert word[0] != '.';
    }
  }

  lemma NonEmptyKeepsAll(segments: seq<string>)
    requires forall seg :: seg in segments ==> seg != ""
    ensures NonEmpty(segments) == segments
  {
    if segments != [] {
      assert segments[0] in segments;
      assert forall seg :: seg in segments[1..] ==> seg in segments;
      NonEmptyKeepsAll(segments[1..]);
    }
  }

  lemma {:induction false} ResolveWithoutDots(segments: seq<string>, resolved: seq<string>)
    requires forall seg :: seg in segments ==> seg != "." && seg != ".."
    ensures ResolveDots(segments, resolved) == resolved + segments
    decreases |segments|
  {
    if segments != [] {
      assert segments[0] in segments;
      assert forall seg :: seg in segments[1..] ==> seg in segments;
      ResolveWithoutDots(segments[1..], resolved + [segments[0]]);
      assert resolved + [segments[0]] + segments[1..] == resolved + segments;
    }
  }

  /** All but the last of non-empty segments survive the filter. */
  lemma NonEmptyKeepsInit(parts: seq<string>)
    requires |parts| >= 1
    requires forall seg :: seg in parts ==> seg != ""
    ensures NonEmpty(parts[..|parts| - 1]) == parts[..|parts| - 1]
  {
    var init := parts[..|parts| - 1];
    assert forall seg :: seg in init ==> seg in parts;
    NonEmptyKeepsAll(init);
  }

  /** `[""] + parts` has the inner segments and the last segment of `parts`. */
  lemma SegmentsAfterEmpty(parts: seq<string>)
    requires |parts| >= 1
    ensures var segments := [""] + parts;
      && segments[1..|segments| - 1] == parts[..|parts| - 1]
      && [segments[0]] + parts[..|parts| - 1] + [segments[|segments| - 1]] == segments
  {
    var segments := [""] + parts;
    var init, last := parts[..|parts| - 1], parts[|parts| - 1];
    assert segments[|segments| - 1] == last;
    assert init + [last] == parts;
    assert [""] + init + [last] == [""] + (init + [last]);
  }

  /** Behind the empty first segment, non-empty segments survive the filter. */
  lemma NonEmptySegmentsKept(parts: seq<string>)
    requires |parts| >= 1
    requires forall seg :: seg in parts ==> seg != ""
    ensures DropInnerEmpty([""] + parts) == [""] + parts
  {
    NonEmptyKeepsInit(parts);
    SegmentsAfterEmpty(parts);
  }

  /** Behind the empty first segment, segments other than "." and ".." survive dot removal. */
  lemma PlainSegmentsResolved(parts: seq<string>)
    requires forall seg :: seg in parts ==> seg != "." && seg != ".."
    ensures ResolveDots([""] + parts, []) == [""] + parts
  {
    assert ([""] + parts)[1..] == parts;
    assert [] + [""] == [""];
    ResolveWithoutDots(parts, [""]);
  }

  /** Against an empty base path, the segments of a path not starting with '/' follow one empty segment. */
  lemma SegmentsBelowRoot(path: string)
    requires !StartsWith(path, "/")
    ensures Segments("", path) == DropInnerEmpty([""] + Split(path, "/"))
  {
    assert Split("", "/") == [""];
  }

  /** Segments that dot removal keeps, and that do not end in a dot segment, are joined as they are. */
  lemma JoinKeptSegments(segments: seq<string>)
    requires |segments| >= 1 && ResolveDots(segments, []) == segments
    requires segments[|segments| - 1] != "." && segments[|segments| - 1] != ".."
    requires Join(segments, "/") != ""
    ensures JoinSegments(segments) == Join(segments, "/")
  {
  }

  /** Joining behind an empty first segment puts the separator in front. */
  lemma JoinAfterEmpty(parts: seq<string>)
    requires |parts| >= 1
    ensures Join([""] + parts, "/") == "/" + Join(parts, "/")
  {
    assert ([""] + parts)[1..] == parts;
  }

  /** The last segment behind an empty first one is the last of the rest. */
  lemma LastAfterEmpty(parts: seq<string>)
    requires |parts| >= 1
    ensures ([""] + parts)[|parts|] == parts[|parts| - 1] && parts[|parts| - 1] in parts
  {
  }

  /** Plain segments behind an empty one are joined into a rooted path. */
  lemma JoinPlainSegments(parts: seq<string>)
    requires |parts| >= 1
    requires forall seg :: seg in parts ==> seg != "" && seg != "." && seg != ".."
    ensures JoinSegments([""] + parts) == "/" + Join(parts, "/")
  {
    var segments := [""] + parts;
    PlainSegmentsResolved(parts);
    assert ResolveDots(segments, []) == segments;
    LastAfterEmpty(parts);
    assert |segments| - 1 == |parts|;
    assert segments[|segments| - 1] != "." && segments[|segments| - 1] != "..";
    JoinAfterEmpty(parts);
    var rooted := "/" + Join(parts, "/");
    assert rooted[0] == '/';
    assert Join(segments, "/") != "";
    JoinKeptSegments(segments);
  }

  /** Against an empty base path, an ordinary relative path is just rooted. */
  lemma MergeOrdinaryPath(path: string)
    requires OrdinaryPath(path)
    ensures MergePath("", path) == "/" + path
  {
    var parts := Split(path, "/");
    assert parts[0] in parts;
    assert !StartsWith(path, "/") by {
      if StartsWith(path, "/") {
        SplitLeading(path, "/");
      }
    }
    SegmentsBelowRoot(path);
    NonEmptySegmentsKept(parts);
    JoinPlainSegments(parts);
    JoinOfSplit(path, "/");
  }

  /** Reading a relative path without ':', '?' or '#' that does not start with '/'. */
  lemma ParseOrdinary(path: string, defaultScheme: string)
    requires OrdinaryPath(path)
    ensures Parse(path, defaultScheme) == Url(defaultScheme, "", path, "", "")
  {
    assert NoneIn(path, UNSAFE_CHARS);
    CleanKeeps(path);
    assert NoneIn(path, {':'});
    IndexOfAnyAfter(path, "", {':'});
    assert path + "" == path;
    var parts := Split(path, "/");
    assert parts[0] in parts;
    if StartsWith(path, "//") {
      assert StartsWith(path, "/");
      SplitLeading(path, "/");
    }
    assert NoneIn(path, {'?', '#'});
    SplitRestOfParts(defaultScheme, "", path, "", "");
  }

  /** `urljoin` puts an ordinary path after a base that is only `scheme://netloc`, behind a '/'. */
  lemma JoinOrdinary(scheme: string, netloc: string, path: string)
    requires ValidScheme(scheme) && Lower(scheme) == scheme
    requires scheme in USES_RELATIVE && scheme in USES_NETLOC
    requires netloc != "" && NoneIn(netloc, NETLOC_DELIMS) && NoneIn(netloc, UNSAFE_CHARS)
    requires OrdinaryPath(path)
    ensures UrlJoin(scheme + "://" + netloc, path) == scheme + "://" + netloc + "/" + path
  {
    var base := scheme + "://" + netloc;
    ParseRoot(scheme, netloc, "");
    ParseOrdinary(path, scheme);
    JoinMerged(base, path, Url(scheme, netloc, "", "", ""), Url(scheme, "", path, "", ""));
    MergeOrdinaryPath(path);
    UnparseRooted(scheme, netloc, path);
  }

  /** Under a base that is only `scheme://netloc`, a path behind a '/' and a query on the same authority are safe. */
  lemma SafeBelowRoot(scheme: string, netloc: string, path: string, query: string)
    requires ValidScheme(scheme) && NoneIn(netloc, NETLOC_DELIMS) && NoneIn(netloc, UNSAFE_CHARS)
    ensures IsSafeUrl(scheme + "://" + netloc, scheme + "://" + netloc + "/" + path + Marked('?', query))
  {
    var after := "/" + path + Marked('?', query);
    assert scheme + "://" + netloc + "/" + path + Marked('?', query) == scheme + "://" + netloc + after;
    ParseAuthority(scheme, netloc, after, "");
    SafeIffSameNetloc(scheme, netloc, scheme + "://" + netloc + after);
  }

  /** Appending `?query` to a URL with an authority leaves the authority as it is. */
  lemma AppendQueryKeepsNetloc(u: Url, query: string)
    requires ValidScheme(u.scheme) && u.netloc != "" && NoneIn(u.netloc, NETLOC_DELIMS) && NoneIn(u.netloc, UNSAFE_CHARS)
    ensures Parse(Unparse(u) + Marked('?', query), "").netloc == u.netloc
  {
    UnparseAuthority(u);
    var authority := u.scheme + "://" + u.netloc;
    var after := AfterAuthority(u);
    assert Unparse(u) == authority + after;
    var mark := Marked('?', query);
    var rest := after + mark;
    assert rest == "" || rest[0] in NETLOC_DELIMS by {
      if after != "" {
        assert rest[0] == after[0];
      }
    }
    ConcatAssoc(authority, after, mark);
    ParseAuthority(u.scheme, u.netloc, rest, "");
    assert Parse(authority + rest, "") == SplitRest(Lower(u.scheme), u.netloc, RemoveUnsafe(rest));
  }

  /** Text starting with '/' has no scheme. */
  lemma NoSchemeBeforeSlash(s: string)
    requires s != "" && s[0] == '/'
    ensures SplitScheme(s) == ("", s)
  {
    var i := IndexOfAny(s, {':'});
    if 0 < i < |s| {
      assert s[..i][0] == '/';
    }
  }

  /** Text made only of C0 controls and spaces, which `urlsplit` strips from the front. */
  predicate Blank(s: string)
  {
    forall k :: 0 <= k < |s| ==> IsC0OrSpace(s[k])
  }

  /**
   * A network-path reference `//host...` behind blanks, with tab, CR or LF
   * anywhere in it, is read by `urlsplit` without the blanks and without
   * those characters.
   */
  lemma CleanNetworkPath(blank: string, host: string, rest: string)
    requires Blank(blank)
    ensures Clean(blank + "//" + host + rest) == "//" + RemoveUnsafe(host) + RemoveUnsafe(rest)
  {
    StripBeforeNetworkPath(blank, host, rest);
    RemoveUnsafeNetworkPath(host, rest);
  }

  lemma StripBeforeNetworkPath(blank: string, host: string, rest: string)
    requires Blank(blank)
    ensures StripLeading(blank + "//" + host + rest) == "//" + host + rest
  {
    var t := "//" + host + rest;
    ConcatAssoc(blank, "//", host);
    ConcatAssoc(blank, "//" + host, rest);
    assert t[0] == '/';
    StripBlankPrefix(blank, t);
  }

  lemma RemoveUnsafeNetworkPath(host: string, rest: string)
    ensures RemoveUnsafe("//" + host + rest) == "//" + RemoveUnsafe(host) + RemoveUnsafe(rest)
  {
    RemoveUnsafeConcat("//" + host, rest);
    RemoveUnsafeConcat("//", host);
    assert NoneIn("//", UNSAFE_CHARS);
    RemoveUnsafeKeeps("//");
  }

  /** Taking characters out of text free of `cs` leaves it free of `cs`. */
  lemma RemoveUnsafeNoneIn(s: string, cs: set<char>)
    requires NoneIn(s, cs)
    ensures NoneIn(RemoveUnsafe(s), cs)
  {
    var r := RemoveUnsafe(s);
    forall k | 0 <= k < |r|
      ensures r[k] !in cs
    {
      assert r[k] in r;
    }
  }

  /**
   * Against a base that is only `scheme://netloc`, a network-path reference
   * `//host...`, behind blanks and with tab, CR or LF anywhere, keeps its own
   * authority: `urljoin` gives the cleaned reference read with the base's
   * scheme.
   */
  lemma JoinNetworkPath(scheme: string, netloc: string, blank: string, host: string, rest: string)
    requires ValidScheme(scheme) && Lower(scheme) == scheme
    requires scheme in USES_RELATIVE && scheme in USES_NETLOC
    requires NoneIn(netloc, NETLOC_DELIMS) && NoneIn(netloc, UNSAFE_CHARS)
    requires Blank(blank) && NoneIn(host, NETLOC_DELIMS) && RemoveUnsafe(host) != ""
    requires rest == "" || rest[0] in NETLOC_DELIMS
    ensures UrlJoin(scheme + "://" + netloc, blank + "//" + host + rest)
         == Unparse(SplitRest(scheme, RemoveUnsafe(host), RemoveUnsafe(rest)))
  {
    var url := blank + "//" + host + rest;
    ParseRoot(scheme, netloc, "");
    ParseNetworkPath(blank, host, rest, scheme);
    assert url != "" by {
      assert |url| >= 2;
    }
  }

  /** `urlparse` of a network-path reference behind blanks: no scheme, and the cleaned authority. */
  lemma ParseNetworkPath(blank: string, host: string, rest: string, defaultScheme: string)
    requires Blank(blank) && NoneIn(host, NETLOC_DELIMS)
    requires rest == "" || rest[0] in NETLOC_DELIMS
    ensures Parse(blank + "//" + host + rest, defaultScheme)
         == SplitRest(defaultScheme, RemoveUnsafe(host), RemoveUnsafe(rest))
  {
    var h, r := RemoveUnsafe(host), RemoveUnsafe(rest);
    CleanNetworkPath(blank, host, rest);
    RemoveUnsafeNoneIn(host, NETLOC_DELIMS);
    if rest == "" {
      assert r == "";
    } else {
      DelimIsSafe(rest[0]);
      RemoveUnsafeFirst(rest);
      assert r[0] in NETLOC_DELIMS;
    }
    ParseSchemeless(blank + "//" + host + rest, defaultScheme, h, r);
  }

  /** Text that cleans to a network-path reference parses with the default scheme. */
  lemma ParseSchemeless(s: string, defaultScheme: string, netloc: string, rest: string)
    requires Clean(s) == "//" + netloc + rest
    requires NoneIn(netloc, NETLOC_DELIMS)
    requires rest == "" || rest[0] in NETLOC_DELIMS
    ensures Parse(s, defaultScheme) == SplitRest(defaultScheme, netloc, rest)
  {
    SplitNetworkPath(netloc, rest);
  }

  /** Text starting with "//" has no scheme, and its authority runs up to the first delimiter. */
  lemma SplitNetworkPath(netloc: string, rest: string)
    requires NoneIn(netloc, NETLOC_DELIMS)
    requires rest == "" || rest[0] in NETLOC_DELIMS
    ensures SplitScheme("//" + netloc + rest) == ("", "//" + netloc + rest)
    ensures SplitNetloc("//" + netloc + rest) == (netloc, rest)
  {
    NoSchemeBeforeSlash("//" + netloc + rest);
    SplitNetlocOf(netloc, rest);
  }

  /** A network-path reference to another authority, with or without a query, fails the check. */
  lemma NetworkPathUnsafe(scheme: string, netloc: string, blank: string, host: string, rest: string, query: string)
    requires ValidScheme(scheme) && Lower(scheme) == scheme
    requires scheme in USES_RELATIVE && scheme in USES_NETLOC
    requires NoneIn(netloc, NETLOC_DELIMS) && NoneIn(netloc, UNSAFE_CHARS)
    requires Blank(blank) && NoneIn(host, NETLOC_DELIMS) && RemoveUnsafe(host) != ""
    requires RemoveUnsafe(host) != netloc
    requires rest == "" || rest[0] in NETLOC_DELIMS
    ensures var base := scheme + "://" + netloc;
            !IsSafeUrl(base, UrlJoin(base, blank + "//" + host + rest) + Marked('?', query))
  {
    JoinNetworkPath(scheme, netloc, blank, host, rest);
    var t := SplitRest(scheme, RemoveUnsafe(host), RemoveUnsafe(rest));
    RemoveUnsafeNoneIn(host, NETLOC_DELIMS);
    AppendQueryKeepsNetloc(t, query);
    SafeIffSameNetloc(scheme, netloc, Unparse(t) + Marked('?', query));
  }

  /**
   * A network-path reference whose authority, once tab, CR and LF are taken
   * out, is the base's own passes the check, with or without a query.
   */
  lemma NetworkPathSameAuthority(scheme: string, netloc: string, blank: string, host: string, rest: string,
                                 query: string)
    requires ValidScheme(scheme) && Lower(scheme) == scheme
    requires scheme in USES_RELATIVE && scheme in USES_NETLOC
    requires NoneIn(netloc, NETLOC_DELIMS) && NoneIn(netloc, UNSAFE_CHARS)
    requires Blank(blank) && NoneIn(host, NETLOC_DELIMS) && RemoveUnsafe(host) == netloc != ""
    requires rest == "" || rest[0] in NETLOC_DELIMS
    ensures var base := scheme + "://" + netloc;
            var url := UrlJoin(base, blank + "//" + host + rest);
            && url == Unparse(SplitRest(scheme, netloc, RemoveUnsafe(rest)))
            && IsSafeUrl(base, url + Marked('?', query))
  {
    JoinNetworkPath(scheme, netloc, blank, host, rest);
    var t := SplitRest(scheme, netloc, RemoveUnsafe(rest));
    AppendQueryKeepsNetloc(t, query);
    SafeIffSameNetloc(scheme, netloc, Unparse(t) + Marked('?', query));
  }

  /**
   * Against a base that is only `scheme://netloc`, a URL with another scheme
   * on the same authority is left as it is by `urljoin`, and the check
   * accepts it, because only authorities and paths are compared.
   */
  lemma OtherSchemeSameAuthority(scheme: string, other: string, netloc: string, rest: string)
    requires ValidScheme(scheme) && Lower(scheme) == scheme
    requires ValidScheme(other) && Lower(other) != scheme
    requires NoneIn(netloc, NETLOC_DELIMS) && NoneIn(netloc, UNSAFE_CHARS)
    requires rest == "" || rest[0] in NETLOC_DELIMS
    ensures var base := scheme + "://" + netloc;
            var url := other + "://" + netloc + rest;
            UrlJoin(base, url) == url && IsSafeUrl(base, url)
  {
    var base := scheme + "://" + netloc;
    var url := other + "://" + netloc + rest;
    ParseRoot(scheme, netloc, "");
    ParseAuthority(other, netloc, rest, scheme);
    ParseAuthority(other, netloc, rest, "");
    SafeIffSameNetloc(scheme, netloc, url);
  }

  /**
   * Against a base that is only `scheme://netloc`, an ordinary path with
   * `?query` appended when the query is not empty gives the base, '/', the
   * path and the marked query, and that URL passes the check.
   */
  lemma OrdinaryTarget(scheme: string, netloc: string, path: string, query: string)
    requires ValidScheme(scheme) && Lower(scheme) == scheme
    requires scheme in USES_RELATIVE && scheme in USES_NETLOC
    requires netloc != "" && NoneIn(netloc, NETLOC_DELIMS) && NoneIn(netloc, UNSAFE_CHARS)
    requires OrdinaryPath(path)
    ensures var base := scheme + "://" + netloc;
            var url := UrlJoin(base, path);
            var target := if query != "" then url + "?" + query else url;
            target == base + "/" + path + Marked('?', query) && IsSafeUrl(base, target)
  {
    var base := scheme + "://" + netloc;
    JoinOrdinary(scheme, netloc, path);
    TargetBelowRoot(scheme, netloc, path, query, UrlJoin(base, path));
  }

  /** A URL that is the base `scheme://netloc`, '/' and a path, with `?query` appended when the query is not empty. */
  lemma TargetBelowRoot(scheme: string, netloc: string, path: string, query: string, url: string)
    requires ValidScheme(scheme) && NoneIn(netloc, NETLOC_DELIMS) && NoneIn(netloc, UNSAFE_CHARS)
    requires url == scheme + "://" + netloc + "/" + path
    ensures var base := scheme + "://" + netloc;
            var target := if query != "" then url + "?" + query else url;
            target == base + "/" + path + Marked('?', query) && IsSafeUrl(base, target)
  {
    if query != "" {
      ConcatAssoc(url, "?", query);
    }
    SafeBelowRoot(scheme, netloc, path, query);
  }
}

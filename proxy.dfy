/**
 * The image proxy endpoint (main.py, proxy): the missing-url check, the
 * allow-list comparison against the source index URL, the upstream fetch and
 * the optional download headers. `urllib.parse.urlparse` and
 * `urllib.parse.unquote` are the parameters `parse` and `unquote`, `parse`
 * giving None where `urlparse` raises `ValueError` (an unbalanced `[` in the
 * network location, say); the upstream response is a parameter, None when
 * the request or its status check raised. What `parse` gives for the source
 * index URL is left general too: no clause below depends on it being
 * ("http", "52.33.176.184", "/tmdbbd/"), which is what `urlparse` gives.
 */
module Proxy {
  import opened Wrappers
  import opened Strings
  import opened Http

  const SOURCE_INDEX_URL: string := "http://52.33.176.184/tmdbbd/"
  const DEFAULT_MIMETYPE: string := "image/jpeg"
  const CACHE_CONTROL: string := "public, max-age=86400"

  /** The parts of a parsed URL the allow-list compares. */
  datatype ParsedUrl = ParsedUrl(scheme: string, netloc: string, path: string)

  /**
   * The allow-list tuple comparison: scheme, netloc and the path cut to the
   * source path's length. The cut-and-compare is a prefix test on the path.
   */
  predicate Allowed(parsed: ParsedUrl, source: ParsedUrl)
    ensures Allowed(parsed, source)
            <==> parsed.scheme == source.scheme && parsed.netloc == source.netloc && StartsWith(parsed.path, source.path)
  {
    TakeIsPrefix(parsed.path, source.path);
    (parsed.scheme, parsed.netloc, Take(parsed.path, |source.path|)) == (source.scheme, source.netloc, source.path)
  }

  /** `path.rsplit("/", 1)[-1]`: what follows the last `/`, or the whole path when it has none. */
  function LastSegment(path: string): (r: string)
    ensures |r| <= |path| && r == path[|path| - |r|..]
    ensures '/' !in r
    ensures |r| < |path| ==> path[|path| - |r| - 1] == '/'
  {
    if path == [] then []
    else if path[|path| - 1] == '/' then []
    else LastSegment(path[..|path| - 1]) + [path[|path| - 1]]
  }

  /**
   * The download name before unquoting: the last segment, or "image" when the
   * path is empty or ends in `/`. It is never empty and never holds a `/`.
   */
  function DownloadName(path: string): (r: string)
    ensures r != [] && '/' !in r
    ensures path == [] || path[|path| - 1] == '/' ==> r == "image"
    ensures path != [] && path[|path| - 1] != '/' ==>
              && |r| <= |path| && r == path[|path| - |r|..]
              && (|r| == |path| || path[|path| - |r| - 1] == '/')
  {
    var segment := LastSegment(path);
    if segment == [] then "image" else segment
  }

  /** A path ending in `/` and then a name without `/` has that name as its last segment. */
  lemma {:induction false} LastSegmentAfterSlash(dir: string, name: string)
    requires '/' !in name
    ensures LastSegment(dir + "/" + name) == name
  {
    if name != [] {
      var init := name[..|name| - 1];
      LastSegmentAfterSlash(dir, init);
      var p := dir + "/" + name;
      assert p[..|p| - 1] == dir + "/" + init;
      assert p[|p| - 1] == name[|name| - 1];
      assert name == init + [name[|name| - 1]];
    } else {
      assert (dir + "/" + name)[|dir|] == '/';
    }
  }

  /** So a file under the source directory downloads under its own name, and the directory as "image". */
  lemma DownloadNameExamples(name: string)
    requires name != [] && '/' !in name
    ensures DownloadName("/tmdbbd/" + name) == name
    ensures DownloadName("/tmdbbd/") == "image"
  {
    assert "/tmdbbd/" + name == "/tmdbbd" + "/" + name;
    LastSegmentAfterSlash("/tmdbbd", name);
  }

  /** The upstream answer: its Content-Type header, if any, and its body. */
  datatype Upstream = Upstream(contentType: Option<string>, content: seq<bv8>)

  /**
   * The responses of the route. A served image lists the headers the route
   * sets, in the order it sets them. ServerError is the framework's answer to
   * an exception the route does not catch.
   */
  datatype ProxyReply =
    | BadRequest(message: string)
    | ServerError
    | FetchError
    | Image(mimetype: string, content: seq<bv8>, headers: seq<(string, string)>)

  function Status(r: ProxyReply): nat
  {
    match r
    case BadRequest(_) => 400
    case ServerError => 500
    case FetchError => 502
    case Image(_, _, _) => 200
  }

  /** A header value Werkzeug refuses with `ValueError`: it holds a line break. */
  predicate BreaksHeader(v: string)
  {
    '\n' in v || '\r' in v
  }

  const DISPOSITION_PREFIX: string := "attachment; filename=\""

  /**
   * The Content-Disposition header for a download: the filename in quotes
   * after the prefix, so it can be read back, and the header breaks exactly
   * when the filename does.
   */
  function ContentDisposition(filename: string): (r: string)
    ensures |r| == |DISPOSITION_PREFIX| + |filename| + 1
    ensures r[..|DISPOSITION_PREFIX|] == DISPOSITION_PREFIX && r[|r| - 1] == '"'
    ensures r[|DISPOSITION_PREFIX|..|r| - 1] == filename
    ensures BreaksHeader(r) <==> BreaksHeader(filename)
  {
    var r := DISPOSITION_PREFIX + filename + "\"";
    assert r[..|DISPOSITION_PREFIX|] == DISPOSITION_PREFIX;
    assert r[|DISPOSITION_PREFIX|..|r| - 1] == filename;
    r
  }

  /** The file name a download is offered under: the last segment (or "image"), unquoted. */
  function DownloadFilename(parsed: ParsedUrl, unquote: string -> string): string
  {
    unquote(DownloadName(parsed.path))
  }

  /** `if not url`: the parameter is absent or empty. */
  predicate MissingUrl(args: Args)
    ensures MissingUrl(args) <==> "url" !in args || args["url"] == ""
  {
    Arg(args, "url") == None || Arg(args, "url") == Some("")
  }

  /** `urlparse` raises for neither the requested URL nor the source index URL. */
  predicate BothParse(url: string, parse: string -> Option<ParsedUrl>)
  {
    parse(url).Some? && parse(SOURCE_INDEX_URL).Some?
  }

  /** The checks before the fetch pass: a URL is given, both URLs parse, and the allow-list admits it. */
  predicate Admitted(args: Args, parse: string -> Option<ParsedUrl>)
  {
    && !MissingUrl(args) && BothParse(args["url"], parse)
    && Allowed(parse(args["url"]).value, parse(SOURCE_INDEX_URL).value)
  }

  /** A download is asked for and its file name would break the headers. */
  predicate DownloadBreaks(args: Args, parse: string -> Option<ParsedUrl>, unquote: string -> string)
    requires Admitted(args, parse)
  {
    Truthy(args, "download") && BreaksHeader(DownloadFilename(parse(args["url"]).value, unquote))
  }

  /**
   * The route: checks in order, then the fetch, then the response. Besides a
   * URL that does not parse, a download whose unquoted file name holds a line
   * break raises outside the `except` (Werkzeug refuses the header), which the
   * framework answers as a server error too.
   */
  function ProxyRoute(args: Args, parse: string -> Option<ParsedUrl>, upstream: Option<Upstream>, unquote: string -> string)
    : (r: ProxyReply)
    ensures MissingUrl(args) <==> r == BadRequest("missing url")
    ensures r == BadRequest("forbidden source")
            <==> && !MissingUrl(args) && BothParse(args["url"], parse)
                 && !Allowed(parse(args["url"]).value, parse(SOURCE_INDEX_URL).value)
    ensures r.BadRequest? ==> r == BadRequest("missing url") || r == BadRequest("forbidden source")
    ensures r.ServerError?
            <==> && !MissingUrl(args)
                 && (!BothParse(args["url"], parse)
                     || (Admitted(args, parse) && upstream.Some? && DownloadBreaks(args, parse, unquote)))
    ensures r.FetchError? <==> Admitted(args, parse) && upstream.None?
    ensures r.Image? <==> Admitted(args, parse) && upstream.Some? && !DownloadBreaks(args, parse, unquote)
    ensures r.Image? ==>
              && upstream.Some? && r.content == upstream.value.content
              && r.mimetype == (if upstream.value.contentType.Some? then upstream.value.contentType.value else DEFAULT_MIMETYPE)
              && var filename := DownloadFilename(parse(args["url"]).value, unquote);
                 r.headers == [("Cache-Control", CACHE_CONTROL)]
                              + if Truthy(args, "download")
                                then [("Content-Disposition", ContentDisposition(filename)), ("X-Download-Filename", filename)]
                                else []
  {
    match Arg(args, "url")
    case None => BadRequest("missing url")
    case Some(url) =>
      if url == "" then BadRequest("missing url")
      else if !BothParse(url, parse) then ServerError
      else
        var parsed := parse(url).value;
        if !Allowed(parsed, parse(SOURCE_INDEX_URL).value) then BadRequest("forbidden source")
        else
          match upstream
          case None => FetchError
          case Some(up) =>
            var mimetype := match up.contentType case Some(t) => t case None => DEFAULT_MIMETYPE;
            var headers := [("Cache-Control", CACHE_CONTROL)];
            if Truthy(args, "download") then
              var filename := DownloadFilename(parsed, unquote);
              if BreaksHeader(filename) then ServerError
              else
                Image(mimetype, up.content,
                      headers + [("Content-Disposition", ContentDisposition(filename)), ("X-Download-Filename", filename)])
            else Image(mimetype, up.content, headers)
  }

  /** The status codes of the route, each tied to the condition that produces it. */
  lemma ProxyStatus(args: Args, parse: string -> Option<ParsedUrl>, upstream: Option<Upstream>, unquote: string -> string)
    ensures var st := Status(ProxyRoute(args, parse, upstream, unquote));
            && (st == 400 <==> MissingUrl(args) || (BothParse(args["url"], parse) && !Admitted(args, parse)))
            && (st == 500 <==> !MissingUrl(args) && (!BothParse(args["url"], parse)
                                                   || (Admitted(args, parse) && upstream.Some? && DownloadBreaks(args, parse, unquote))))
            && (st == 502 <==> Admitted(args, parse) && upstream.None?)
            && (st == 200 <==> Admitted(args, parse) && upstream.Some? && !DownloadBreaks(args, parse, unquote))
  {
  }

  /** Every header value of a served image is one Werkzeug accepts. */
  lemma ServedHeadersAreSafe(args: Args, parse: string -> Option<ParsedUrl>, upstream: Option<Upstream>, unquote: string -> string)
    ensures var r := ProxyRoute(args, parse, upstream, unquote);
            r.Image? ==> forall k | 0 <= k < |r.headers| :: !BreaksHeader(r.headers[k].1)
  {
    var r := ProxyRoute(args, parse, upstream, unquote);
    if r.Image? {
      assert !BreaksHeader(CACHE_CONTROL);
    }
  }
}

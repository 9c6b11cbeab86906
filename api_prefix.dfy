/** The middleware that lets the handlers answer under `/api/…` as well:
    a request URL that starts with `/api/` loses its first four characters
    in place before routing. */
module ApiPrefix {
  import opened JsStrings

  const API_PREFIX := "api"

  /** `/${API_PREFIX}/`. */
  const MARKER := "/" + API_PREFIX + "/"

  /** The URL the router sees. */
  function Rewrite(url: string): (r: string)
    ensures StartsWith(url, MARKER) ==> "/" + API_PREFIX + r == url && StartsWith(r, "/")
    ensures !StartsWith(url, MARKER) ==> r == url
  {
    IndexOfZeroIffPrefix(url, MARKER);
    if IndexOf(url, MARKER) == 0 then
      assert url == url[..4] + url[4..];
      Substring(url, |API_PREFIX| + 1)
    else
      url
  }

  /** The part of an incoming request the middleware touches. */
  class Request {
    var url: string

    constructor(url: string)
      ensures this.url == url
    {
      this.url := url;
    }

    /** `req.url = req.url.substring(API_PREFIX.length + 1)` when
        `req.url.indexOf('/api/') === 0`; then `next()`. */
    method StripApiPrefix()
      modifies this
      ensures url == Rewrite(old(url))
    {
      if IndexOf(url, MARKER) == 0 {
        url := Substring(url, |API_PREFIX| + 1);
      }
    }
  }

  /** A rewritten URL is exactly four characters shorter, or unchanged. */
  lemma RewriteLength(url: string)
    ensures |Rewrite(url)| == |url| - 4 <==> StartsWith(url, MARKER)
    ensures |Rewrite(url)| == |url| <==> !StartsWith(url, MARKER)
  {
  }

  /** Only one prefix is stripped per request: `/api/api/x` is routed as
      `/api/x`, which a second pass would have turned into `/x`. */
  lemma RewriteStripsOnce()
    ensures Rewrite("/api/api/x") == "/api/x"
    ensures Rewrite(Rewrite("/api/api/x")) == "/x"
  {
    assert StartsWith("/api/api/x", MARKER);
    assert "/api/api/x"[4..] == "/api/x";
    assert StartsWith("/api/x", MARKER);
    assert "/api/x"[4..] == "/x";
  }

  /** A request already at a route such as `/allCertificates/…` is routed
      as it came. */
  lemma RouteUntouched(rest: string)
    requires rest == [] || rest[0] != 'a'
    ensures Rewrite("/" + rest) == "/" + rest
  {
    assert !StartsWith("/" + rest, MARKER) by {
      if |"/" + rest| >= 5 {
        assert ("/" + rest)[1] == rest[0];
        assert MARKER[1] == 'a';
      }
    }
  }
}

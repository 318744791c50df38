/**
 * The fetch control logic of the HTTP client (lib/medusa/http.rb): the
 * request-option map `get_response` sends, its retry counter, the redirect
 * loop of `get`, and how `fetch_pages` stamps depths and reports a failure.
 *
 * The network is an oracle: a function from the URL, the request options and
 * the number of the attempt to what `open` did. Each operation is first a
 * function (the specification the lemmas of module HttpProperties talk about)
 * and then a method of class Http that does it step by step, proved equal to
 * the function.
 */
module HttpFetch {
  import opened Wrappers
  import opened Urls
  import opened Pages

  /** Redirects followed for one `get` unless the options say otherwise. */
  const REDIRECT_LIMIT: int := 5

  /** Transient faults tolerated by one `get_response` before it gives up. */
  const RETRY_LIMIT: nat := 6

  // ---------------------------------------------------------------------
  // Options and the request map
  // ---------------------------------------------------------------------

  datatype Credentials = Credentials(user: string, password: string)

  /** A key of the options hash handed to `open`: a header name, or one of
      the symbols open-uri reads. */
  datatype OptionKey =
    | Header(name: string)
    | HttpBasicAuthentication
    | Proxy
    | ProxyHttpBasicAuthentication
    | ReadTimeout
    | Redirect

  datatype OptionValue =
    | Text(text: string)
    | Login(credentials: Credentials)
    | Seconds(seconds: int)
    | Flag(flag: bool)

  type RequestOptions = map<OptionKey, OptionValue>

  /** The client's `@opts`, as far as the fetch logic reads them. An option
      that Ruby reads as nil or false is None (or false). */
  datatype Options = Options(
    redirectLimit: Option<int>,
    userAgent: Option<string>,
    acceptCookies: bool,
    cookies: Option<seq<string>>,          // seed cookies for the cookie store
    httpBasicAuthentication: Option<Credentials>,
    proxy: Option<string>,
    proxyHttpBasicAuthentication: Option<Credentials>,
    readTimeout: Option<int>,
    httpRequestHeaders: seq<(OptionKey, OptionValue)>)  // in the hash's order; nil is []

  /** `redirect_limit`: the configured limit, or 5. Ruby's `||` only falls
      back on nil, so a configured 0 stays 0. */
  function RedirectLimit(o: Options): (limit: int)
    ensures o.redirectLimit.Some? ==> limit == o.redirectLimit.value
    ensures o.redirectLimit.None? ==> limit == REDIRECT_LIMIT
  {
    o.redirectLimit.GetOr(REDIRECT_LIMIT)
  }

  /** `allowed?(to, from)`: a redirect may be followed when the target names
      no host or the same host as the original request; either way, once
      merged into the original request's URL it stays on that host. */
  predicate Allowed(to: Url, from: Url)
    ensures Allowed(to, from) && !from.IsRelative() ==> Merge(from, to).host == from.host
    ensures !Allowed(to, from) ==> to.host.Some? && to.host != from.host
  {
    to.host.None? || to.host == from.host
  }

  /** `full_path`: the path, with `?` and the query when there is one. */
  function FullPath(u: Url): string {
    match u.query
    case None => u.path
    case Some(q) => u.path + "?" + q
  }

  /** The cookie store. CookieStore is not part of this model: this stand-in
      keeps the cookies as a list, writes them `; `-separated, and records each
      Set-Cookie value the server sends. */
  datatype CookieJar = CookieJar(cookies: seq<string>) {
    predicate IsEmpty() {
      cookies == []
    }

    function ToHeader(): string {
      Join(cookies)
    }

    function Merge(setCookie: Option<string>): CookieJar {
      match setCookie
      case None => this
      case Some(c) => CookieJar(cookies + [c])
    }
  }

  function Join(cs: seq<string>): string
    decreases |cs|
  {
    if cs == [] then ""
    else if |cs| == 1 then cs[0]
    else cs[0] + "; " + Join(cs[1..])
  }

  /** `CookieStore.new(@opts[:cookies])`. */
  function NewJar(seed: Option<seq<string>>): CookieJar {
    CookieJar(seed.GetOr([]))
  }

  /** Whether the Cookie header is sent: the store is not empty and either
      cookies are accepted or seed cookies were configured. */
  predicate SendsCookies(o: Options, jar: CookieJar) {
    !(jar.IsEmpty() || (!o.acceptCookies && o.cookies.None?))
  }

  /** The entries `get_response` writes before the proxy credentials. */
  function LeadingOptions(o: Options, jar: CookieJar, referer: Option<Url>): RequestOptions {
    var m0: RequestOptions := map[];
    var m1 := if o.userAgent.Some? then m0[Header("User-Agent") := Text(o.userAgent.value)] else m0;
    var m2 := if referer.Some? then m1[Header("Referer") := Text(UrlString(referer.value))] else m1;
    var m3 := if SendsCookies(o, jar) then m2[Header("Cookie") := Text(jar.ToHeader())] else m2;
    var m4 := if o.httpBasicAuthentication.Some? then m3[HttpBasicAuthentication := Login(o.httpBasicAuthentication.value)] else m3;
    if o.proxy.Some? then m4[Proxy := Text(o.proxy.value)] else m4
  }

  /** The options hash before the configured extra headers are applied, entry
      by entry in the order `get_response` writes them. The line that writes
      the proxy credentials ends in a `rescue` modifier, which takes the next
      line (the read timeout's) as its rescue body; `rescue` binds tighter than
      the `if` modifier that closes that next line, so the whole statement is
      guarded by the read timeout, and since the hash assignment never raises,
      the read timeout itself is never written. */
  function BaseOptions(o: Options, jar: CookieJar, referer: Option<Url>): RequestOptions {
    var m5 := LeadingOptions(o, jar, referer);
    var m6 := if o.readTimeout.Some? && o.proxyHttpBasicAuthentication.Some?
      then m5[ProxyHttpBasicAuthentication := Login(o.proxyHttpBasicAuthentication.value)] else m5;
    m6[Redirect := Flag(false)]
  }

  /** The options hash the two lines are evidently meant to build: the proxy
      credentials whenever configured, and the read timeout whenever configured. */
  function IntendedBaseOptions(o: Options, jar: CookieJar, referer: Option<Url>): RequestOptions {
    var m5 := LeadingOptions(o, jar, referer);
    var m6 := if o.proxyHttpBasicAuthentication.Some?
      then m5[ProxyHttpBasicAuthentication := Login(o.proxyHttpBasicAuthentication.value)] else m5;
    var m7 := if o.readTimeout.Some? then m6[ReadTimeout := Seconds(o.readTimeout.value)] else m6;
    m7[Redirect := Flag(false)]
  }

  /** The extra headers written over `m` in order, so a later entry wins. */
  function Overlay(m: RequestOptions, hs: seq<(OptionKey, OptionValue)>): RequestOptions
    decreases |hs|
  {
    if hs == [] then m
    else
      var last := hs[|hs| - 1];
      Overlay(m, hs[..|hs| - 1])[last.0 := last.1]
  }

  /** The options hash `get_response` hands to `open`. */
  function RequestOptionsFor(o: Options, jar: CookieJar, referer: Option<Url>): RequestOptions {
    Overlay(BaseOptions(o, jar, referer), o.httpRequestHeaders)
  }

  // ---------------------------------------------------------------------
  // The network oracle and the retry counter
  // ---------------------------------------------------------------------

  /** Timeout, end of file, refused, timed-out or reset connections are
      transient and retried; any other exception is fatal. */
  datatype Fault = Transient | Fatal

  /** What `open` handed back: the status code (None when it is not an
      integer, so that `Integer` raises), the Set-Cookie header, the links the
      body yields, and the fault `read` raises, if any. */
  datatype Resource = Resource(status: Option<int>, setCookie: Option<string>, links: seq<Url>, readFault: Option<Fault>)

  /** One call of `open`: it produced a resource (on success, or through an
      HTTPRedirect carrying the target, or an HTTPError), or it raised. */
  datatype Attempt =
    | Opened(resource: Resource, redirect: Option<Url>)
    | Failed(fault: Fault)

  /** The answer of `open` for a URL, the options hash and the attempt number. */
  type Network = (Url, RequestOptions, nat) -> Attempt

  predicate IsTransient(a: Attempt) {
    || (a.Failed? && a.fault == Transient)
    || (a.Opened? && a.resource.readFault == Some(Transient))
  }

  datatype Reply = Reply(resource: Resource, redirectTo: Option<Url>)

  /** `get_response` returned a reply, returned nil after too many retries,
      or let an exception out. */
  datatype Outcome = Returned(reply: Reply) | GaveUp | Threw

  /** The outcome, the cookie store afterwards, and the number of attempts. */
  datatype Exchange = Exchange(outcome: Outcome, jar: CookieJar, attempts: nat)

  /** The `begin ... retry` block of `get_response` from attempt `retries` on,
      with `redirectTo` as left by the earlier attempts: a redirect target is
      recorded when `open` raises HTTPRedirect, cookies are merged when they are
      accepted, and only then is the body read. */
  function Respond(net: Network, url: Url, req: RequestOptions, accept: bool, jar: CookieJar,
                   retries: nat, redirectTo: Option<Url>): Exchange
    requires retries <= RETRY_LIMIT
    decreases RETRY_LIMIT - retries
  {
    var a := net(url, req, retries);
    var redirectTo' := if a.Opened? && a.redirect.Some? then a.redirect else redirectTo;
    var jar' := if a.Opened? && accept then jar.Merge(a.resource.setCookie) else jar;
    if IsTransient(a) then
      if retries + 1 > RETRY_LIMIT then Exchange(GaveUp, jar', retries + 1)
      else Respond(net, url, req, accept, jar', retries + 1, redirectTo')
    else if a.Failed? || a.resource.readFault.Some? then Exchange(Threw, jar', retries + 1)
    else Exchange(Returned(Reply(a.resource, redirectTo')), jar', retries + 1)
  }

  /** `get_response(url, referer)` from a fresh counter. */
  function GetResponseSpec(net: Network, o: Options, jar: CookieJar, url: Url, referer: Option<Url>): Exchange {
    Respond(net, url, RequestOptionsFor(o, jar, referer), o.acceptCookies, jar, 0, None)
  }

  // ---------------------------------------------------------------------
  // The redirect loop of `get`
  // ---------------------------------------------------------------------

  /** Why the loop of `get` ended. */
  datatype StopReason =
    | Unredirected   // the last reply had no redirect target
    | OffSite        // the target is not allowed
    | OutOfHops      // the limit ran out
    | Broken         // an exception: a relative URL with nothing to merge it with, a
                     // request that raised or gave up, or a status that is not an integer

  datatype Hops = Hops(pages: seq<Page>, jar: CookieJar, stop: StopReason)

  /** `Page.new(loc, ...)` for a reply whose status is an integer. */
  function FetchedPage(loc: Url, reply: Reply, referer: Option<Url>): Page
    requires reply.resource.status.Some?
  {
    Page(Uri(loc), reply.resource.links, true, reply.resource.status, referer, reply.redirectTo, None, false, false)
  }

  /** The location requested for `loc`: merged with `url` when relative. */
  function Resolve(url: Url, loc: Url): Url
    requires !(loc.IsRelative() && url.IsRelative())
  {
    if loc.IsRelative() then Merge(url, loc) else loc
  }

  /** The do-while of `get` with `pages` yielded so far, `loc` the next
      location and `limit` the remaining count. */
  function HopsFrom(net: Network, o: Options, url: Url, referer: Option<Url>, jar: CookieJar,
                    loc: Url, limit: int, pages: seq<Page>): Hops
    decreases if limit > 0 then limit else 0
  {
    if loc.IsRelative() && url.IsRelative() then Hops(pages, jar, Broken)
    else
      var target := Resolve(url, loc);
      var x := GetResponseSpec(net, o, jar, target, referer);
      if !x.outcome.Returned? || x.outcome.reply.resource.status.None? then Hops(pages, x.jar, Broken)
      else
        var pages' := pages + [FetchedPage(target, x.outcome.reply, referer)];
        var next := x.outcome.reply.redirectTo;
        if next.None? then Hops(pages', x.jar, Unredirected)
        else if !Allowed(next.value, url) then Hops(pages', x.jar, OffSite)
        else if limit - 1 <= 0 then Hops(pages', x.jar, OutOfHops)
        else HopsFrom(net, o, url, referer, x.jar, next.value, limit - 1, pages')
  }

  /** `get(url, referer)`: the pages it yields, in order. */
  function GetSpec(net: Network, o: Options, jar: CookieJar, url: Url, referer: Option<Url>): Hops {
    HopsFrom(net, o, url, referer, jar, url, RedirectLimit(o), [])
  }

  // ---------------------------------------------------------------------
  // fetch_pages and fetch_page
  // ---------------------------------------------------------------------

  /** `URI(url)` for a string: the parsed URI, or None when it raises. */
  type Parser = string -> Option<Url>

  datatype Fetch = Fetch(pages: seq<Page>, jar: CookieJar)

  /** The block `fetch_pages` hands to `get`, applied to every page. */
  function Stamp(pages: seq<Page>, depth: int): seq<Page> {
    seq(|pages|, i requires 0 <= i < |pages| => pages[i].(depth := Some(depth)))
  }

  /** `url = URI(url) unless url.is_a?(URI)`. */
  function Parsed(parse: Parser, url: UrlLike): Option<Url> {
    match url
    case Uri(u) => Some(u)
    case Str(s) => parse(s)
  }

  /** `fetch_pages(url, referer, depth)`: the pages of `get`, each at `depth`;
      when the URL does not parse, a single error page for it. */
  function FetchPagesSpec(net: Network, parse: Parser, o: Options, jar: CookieJar,
                          url: UrlLike, referer: Option<Url>, depth: int): Fetch {
    match Parsed(parse, url)
    case None => Fetch([ErrorPage(url)], jar)
    case Some(u) =>
      var h := GetSpec(net, o, jar, u, referer);
      Fetch(Stamp(h.pages, depth), h.jar)
  }

  function Last(pages: seq<Page>): Option<Page> {
    if pages == [] then None else Some(pages[|pages| - 1])
  }

  // ---------------------------------------------------------------------
  // The client
  // ---------------------------------------------------------------------

  class Http {
    /** `@opts`. */
    const opts: Options
    /** `@cookie_store`. */
    var cookieStore: CookieJar

    constructor (opts: Options)
      ensures this.opts == opts && cookieStore == NewJar(opts.cookies)
    {
      this.opts := opts;
      cookieStore := NewJar(opts.cookies);
    }

    /** The options hash of `get_response`, built entry by entry. */
    method BuildRequestOptions(referer: Option<Url>) returns (req: RequestOptions)
      ensures req == RequestOptionsFor(opts, cookieStore, referer)
    {
      req := map[];
      if opts.userAgent.Some? {
        req := req[Header("User-Agent") := Text(opts.userAgent.value)];
      }
      if referer.Some? {
        req := req[Header("Referer") := Text(UrlString(referer.value))];
      }
      if !(cookieStore.IsEmpty() || (!opts.acceptCookies && opts.cookies.None?)) {
        req := req[Header("Cookie") := Text(cookieStore.ToHeader())];
      }
      if opts.httpBasicAuthentication.Some? {
        req := req[HttpBasicAuthentication := Login(opts.httpBasicAuthentication.value)];
      }
      if opts.proxy.Some? {
        req := req[Proxy := Text(opts.proxy.value)];
      }
      assert req == LeadingOptions(opts, cookieStore, referer);
      if opts.readTimeout.Some? {
        if opts.proxyHttpBasicAuthentication.Some? {
          req := req[ProxyHttpBasicAuthentication := Login(opts.proxyHttpBasicAuthentication.value)];
        }
      }
      req := req[Redirect := Flag(false)];
      assert req == BaseOptions(opts, cookieStore, referer);
      var hs := opts.httpRequestHeaders;
      ghost var base := req;
      for i := 0 to |hs|
        invariant req == Overlay(base, hs[..i])
      {
        assert hs[..i + 1][..i] == hs[..i];
        req := req[hs[i].0 := hs[i].1];
      }
      assert hs[..|hs|] == hs;
    }

    /** `get_response(url, referer)`: the retry loop. */
    method GetResponse(url: Url, referer: Option<Url>, net: Network) returns (outcome: Outcome)
      modifies this
      ensures outcome == GetResponseSpec(net, opts, old(cookieStore), url, referer).outcome
      ensures cookieStore == GetResponseSpec(net, opts, old(cookieStore), url, referer).jar
    {
      var req := BuildRequestOptions(referer);
      var retries: nat := 0;
      var redirectTo: Option<Url> := None;
      ghost var goal := GetResponseSpec(net, opts, cookieStore, url, referer);
      while true
        invariant retries <= RETRY_LIMIT
        invariant Respond(net, url, req, opts.acceptCookies, cookieStore, retries, redirectTo) == goal
        decreases RETRY_LIMIT - retries
      {
        var a := net(url, req, retries);
        if a.Opened? {
          if a.redirect.Some? {
            redirectTo := a.redirect;
          }
          if opts.acceptCookies {
            cookieStore := cookieStore.Merge(a.resource.setCookie);
          }
        }
        if IsTransient(a) {
          retries := retries + 1;
          if retries > RETRY_LIMIT {
            return GaveUp;
          }
        } else if a.Failed? || a.resource.readFault.Some? {
          return Threw;
        } else {
          return Returned(Reply(a.resource, redirectTo));
        }
      }
    }

    /** `get(url, referer)`: follow redirects while they are allowed and the
        limit lasts; any exception ends the loop with the pages so far. */
    method Get(url: Url, referer: Option<Url>, net: Network) returns (pages: seq<Page>, ghost stop: StopReason)
      modifies this
      ensures Hops(pages, cookieStore, stop) == GetSpec(net, opts, old(cookieStore), url, referer)
    {
      var limit := RedirectLimit(opts);
      var loc := url;
      pages := [];
      ghost var goal := GetSpec(net, opts, cookieStore, url, referer);
      while true
        invariant HopsFrom(net, opts, url, referer, cookieStore, loc, limit, pages) == goal
        decreases if limit > 0 then limit else 0
      {
        if loc.IsRelative() {
          if url.IsRelative() {
            stop := Broken;
            return;
          }
          loc := Merge(url, loc);
        }
        var outcome := GetResponse(loc, referer, net);
        if !outcome.Returned? || outcome.reply.resource.status.None? {
          stop := Broken;
          return;
        }
        pages := pages + [FetchedPage(loc, outcome.reply, referer)];
        limit := limit - 1;
        var next := outcome.reply.redirectTo;
        if next.None? {
          stop := Unredirected;
          return;
        } else if !Allowed(next.value, url) {
          stop := OffSite;
          return;
        } else if limit <= 0 {
          stop := OutOfHops;
          return;
        }
        loc := next.value;
      }
    }

    /** `fetch_pages(url, referer, depth)`. */
    method FetchPages(url: UrlLike, referer: Option<Url>, depth: int, net: Network, parse: Parser)
      returns (pages: seq<Page>)
      modifies this
      ensures Fetch(pages, cookieStore) == FetchPagesSpec(net, parse, opts, old(cookieStore), url, referer, depth)
    {
      var u: Url;
      match url {
        case Uri(v) =>
          u := v;
        case Str(s) =>
          var parsed := parse(s);
          if parsed.None? {
            return [ErrorPage(url)];
          }
          u := parsed.value;
      }
      var got, _ := Get(u, referer, net);
      pages := Stamp(got, depth);
    }

    /** `fetch_page(url, referer, depth)`: the last page `fetch_pages` returns. */
    method FetchPage(url: UrlLike, referer: Option<Url>, depth: int, net: Network, parse: Parser)
      returns (page: Option<Page>)
      modifies this
      ensures page == Last(FetchPagesSpec(net, parse, opts, old(cookieStore), url, referer, depth).pages)
      ensures cookieStore == FetchPagesSpec(net, parse, opts, old(cookieStore), url, referer, depth).jar
    {
      var pages := FetchPages(url, referer, depth, net, parse);
      page := Last(pages);
    }
  }
}
